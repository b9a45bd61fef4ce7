/** Rounds of synchronisation against an honest peer, from any branch and with any blocks waiting: which nodes reach the
    peer's tip by such rounds, and which are stuck below it for good. */
module Forks {
  import opened Types
  import opened Tree
  import opened Orphans
  import opened ForkChoice
  import opened Confluence
  import opened Unreported
  import opened Samples
  import opened Locator
  import opened Segments
  import Order
  import Pow

  // ---------- where a reply starts ----------

  /** A reply to the node's locator starts above height `c` of the peer's main chain. */
  ghost predicate AnchoredAt(s: Tree, t: Tree, c: nat)
    requires Linked(s) && Linked(t)
  {
    exists locator :: IsLocator(MainPath(s), 32, locator) && IsAnchor(MainPath(t), locator, c)
  }

  lemma LocatorUnique(main: seq<Hash>, max: nat, x: seq<Hash>, y: seq<Hash>)
    requires IsLocator(main, max, x) && IsLocator(main, max, y)
    ensures x == y
  {
    hide Depth;
  }

  /** It is one height only, and lies on both main chains. */
  lemma AnchorIsOne(p: Params, s: Tree, t: Tree, c: nat, c': nat)
    requires Inv(p, t) && Linked(t) && Linked(s) && AnchoredAt(s, t, c) && AnchoredAt(s, t, c')
    ensures c == c' < |MainPath(t)|
  {
    hide Inv, Link, Path, IsLocator;
    var x :| IsLocator(MainPath(s), 32, x) && IsAnchor(MainPath(t), x, c);
    var y :| IsLocator(MainPath(s), 32, y) && IsAnchor(MainPath(t), y, c');
    LocatorUnique(MainPath(s), 32, x, y);
    AnchorFixed(MainPath(t), x, c, c');
    PathDistinct(t, t.tip, c, c');
  }

  lemma AnchorFixed(main: seq<Hash>, locator: seq<Hash>, c: nat, c': nat)
    requires IsAnchor(main, locator, c) && IsAnchor(main, locator, c')
    ensures main[c] == main[c']
  {}

  lemma AnchorShared(p: Params, s: Tree, t: Tree, c: nat)
    requires Inv(p, t) && Linked(t) && Shares(p, t, s) && Linked(s) && AnchoredAt(s, t, c)
    ensures c < |MainPath(t)| && MainPath(t)[c] in MainPath(s) && MainPath(t)[c] in s.blocks
    ensures s.tip in s.height && c <= s.height[s.tip]
  {
    hide Inv, Link, Linked, Depth;
    SharesParts(p, t, s);
    var x :| IsLocator(MainPath(s), 32, x) && IsAnchor(MainPath(t), x, c);
    if k :| 0 <= k < |x| && x[k] == MainPath(t)[c] {
      assert x[k] in MainPath(s);
    } else {
      assert MainPath(s)[0] == MainPath(t)[0];
    }
    BelowHeld(p, t, s, c, c);
    TipIsHighest(p, s, MainPath(t)[c]);
  }

  /** A node whose tip is on the peer's main chain is anchored there. */
  lemma TipAnchored(p: Params, s: Tree, t: Tree, n: nat, c: nat)
    requires Inv(p, t) && Linked(t) && Linked(s) && n < |MainPath(t)| && s.tip == MainPath(t)[n] && AnchoredAt(s, t, c)
    ensures c == n
  {
    hide Inv, Link, Depth;
    var x :| IsLocator(MainPath(s), 32, x) && IsAnchor(MainPath(t), x, c);
    LocatorHead(s, x);
    AnchorIs(MainPath(t), x, c, 0);
    PathDistinct(t, t.tip, c, n);
  }

  lemma LocatorHead(s: Tree, x: seq<Hash>)
    requires Linked(s) && IsLocator(MainPath(s), 32, x)
    ensures x[0] == s.tip
  {}

  // ---------- whole runs of rounds ----------

  ghost predicate IsBehind(s: Tree, t: Tree) {
    s.tip in s.height && t.tip in t.height && s.height[s.tip] < t.height[t.tip]
  }

  /** One fully answered round of a node that is behind. */
  ghost predicate Round(p: Params, t: Tree, limit: nat, s: Tree, u: Tree)
    requires Linked(t)
  {
    Linked(s) && IsBehind(s, t) && exists c: nat :: AnchoredAt(s, t, c) && RoundEffect(p, t, c, limit, s, u)
  }

  ghost predicate RoundsLead(p: Params, t: Tree, limit: nat, s: Tree, n: nat, u: Tree)
    requires Linked(t)
    decreases n
  {
    if n == 0 then s == u
    else exists m: Tree :: Round(p, t, limit, s, m) && RoundsLead(p, t, limit, m, n - 1, u)
  }

  /** Rounds needed to close a gap when each closes up to `limit` of it. */
  function Rounds(gap: nat, limit: nat): nat
    requires limit > 0
  {
    if gap == 0 then 0 else 1 + Rounds(if gap < limit then 0 else gap - limit, limit)
  }

  /** That is the gap divided by the limit, rounded up. */
  lemma {:induction false} RoundsIsCeiling(gap: nat, limit: nat)
    requires limit > 0
    ensures gap <= Rounds(gap, limit) * limit
    ensures gap > 0 ==> (Rounds(gap, limit) - 1) * limit < gap
  {
    if gap > limit {
      var k := Rounds(gap - limit, limit);
      RoundsIsCeiling(gap - limit, limit);
      assert (1 + k) * limit == limit + k * limit;
      assert (k - 1) * limit == k * limit - limit;
    }
  }

  lemma {:induction false} RoundsMonotone(x: nat, y: nat, limit: nat)
    requires limit > 0 && x <= y
    ensures Rounds(x, limit) <= Rounds(y, limit)
    decreases y
  {
    if x > 0 {
      RoundsMonotone(if x < limit then 0 else x - limit, if y < limit then 0 else y - limit, limit);
    }
  }

  /** A round exists from every tree that is behind. */
  lemma RoundCompletes(p: Params, t: Tree, limit: nat, s: Tree, c: nat) returns (u: Tree)
    requires Inv(p, t) && Linked(t) && Shares(p, t, s) && Linked(s) && IsBehind(s, t) && AnchoredAt(s, t, c)
    ensures Round(p, t, limit, s, u) && RoundEffect(p, t, c, limit, s, u)
  {
    hide Inv, Run, Quiescent, Linked, AnchoredAt, RoundEffect, Shares;
    SharesParts(p, t, s);
    AnchorShared(p, s, t, c);
    var hi := Min(c + limit, |MainPath(t)| - 1);
    var bs := MainChain(t)[c + 1..hi + 1];
    u := RunCompletes(p, s, bs);
    assert Answered(t, c + 1, hi, bs, u) by {
      forall b | b in bs ensures b in Segment(t, c + 1, hi) {
        var i :| 0 <= i < |bs| && bs[i] == b;
        assert MainChain(t)[c + 1 + i] == b;
      }
      forall i {:trigger MainPath(t)[i]} | c + 1 <= i <= hi ensures MainChain(t)[i] in bs {
        assert bs[i - c - 1] == MainChain(t)[i];
      }
    }
    SegmentExtends(p, t, c, limit, s, bs, u);
  }

  lemma AnchorExists(p: Params, s: Tree, t: Tree) returns (c: nat)
    requires Linked(s) && Linked(t)
    ensures AnchoredAt(s, t, c)
  {
    var x := LocatorOf(MainPath(s));
    var main := MainPath(t);
    var k := 0;
    while k < |x| && x[k] !in main
      invariant k <= |x| && forall j | 0 <= j < k :: x[j] !in main
    {
      k := k + 1;
    }
    if k < |x| {
      c :| 0 <= c < |main| && main[c] == x[k];
    } else {
      c := 0;
    }
    assert IsAnchor(main, x, c);
  }

  lemma LocatorOf(main: seq<Hash>) returns (x: seq<Hash>)
    requires main != []
    ensures IsLocator(main, 32, x)
  {
    hide Depth;
    x := [main[|main| - 1]];
    DepthStep(0);
    while |x| < 32 && Depth(|x| - 1) < |main| - 1
      invariant 0 < |x| <= 32
      invariant forall k | 0 <= k < |x| :: x[k] == main[|main| - 1 - Min(|main| - 1, Depth(k))]
      invariant forall k | 0 <= k < |x| - 1 :: Depth(k) < |main| - 1
    {
      x := x + [main[|main| - 1 - Min(|main| - 1, Depth(|x|))]];
    }
  }

  /** A round from a tree that shares with the peer, in terms of its one anchor. */
  lemma RoundParts(p: Params, t: Tree, limit: nat, s: Tree, u: Tree, c: nat)
    requires Inv(p, t) && Linked(t) && Shares(p, t, s) && Linked(s) && AnchoredAt(s, t, c) && Round(p, t, limit, s, u)
    ensures RoundEffect(p, t, c, limit, s, u) && IsBehind(s, t) && Shares(p, t, u) && Linked(u) && Extends(s, u)
    ensures |MainPath(t)| == t.height[t.tip] + 1
  {
    hide Inv, AnchoredAt, Extends, Link;
    var x: nat :| AnchoredAt(s, t, x) && RoundEffect(p, t, x, limit, s, u);
    AnchorIsOne(p, s, t, c, x);
    SharesParts(p, t, u);
  }

  // ---------- stuck below a fork ----------

  /** On what a round has left nothing waits on top of the segment. */
  lemma NothingOnTop(p: Params, t: Tree, c: nat, hi: nat, u: Tree, path: seq<Block>)
    requires Inv(p, t) && Linked(t) && Shares(p, t, u) && hi < |MainPath(t)|
    requires forall i | 0 <= i <= hi :: MainPath(t)[i] in u.blocks
    ensures !OnTop(p, t, c, hi, u, path)
  {
    hide Inv, Link, Linked, Validate;
    if OnTop(p, t, c, hi, u, path) {
      var i: nat :| c < i <= hi && OrphanPath(p, u, MainChain(t)[i], path);
      MainBlock(p, t, i);
      var x := path[1];
      ValidatedHeader(p, x, path[0], x.hash);
    }
  }

  /** A round that does not raise the tip changes neither tip nor anchor, and neither will the next. */
  lemma StalledRound(p: Params, t: Tree, limit: nat, s: Tree, u: Tree, c: nat)
    requires Inv(p, t) && Linked(t) && Shares(p, t, s) && Linked(s) && AnchoredAt(s, t, c) && Round(p, t, limit, s, u)
    requires c < |MainPath(t)| && s.tip in s.height && !Rises(p, t, c, limit, s)
    ensures Shares(p, t, u) && Linked(u) && Extends(s, u) && u.tip == s.tip && AnchoredAt(u, t, c)
    ensures u.tip in u.height && u.height[u.tip] == s.height[s.tip] && IsBehind(u, t)
    ensures !Rises(p, t, c, limit, u)
  {
    hide Inv, Linked, Shares, IsLocator, IsAnchor, OnTop, Gained;
    RoundParts(p, t, limit, s, u, c);
    SharesParts(p, t, u);
    ExtendsKeeps(s, u);
    SharesParts(p, t, s);
    PathFrame(s, u, s.tip);
    var hi := Min(c + limit, |MainPath(t)| - 1);
    forall path: seq<Block> ensures !OnTop(p, t, c, hi, u, path) {
      NothingOnTop(p, t, c, hi, u, path);
    }
  }

  /** So no number of rounds will move it. */
  lemma {:induction false} StalledForGood(p: Params, t: Tree, limit: nat, s: Tree, c: nat, n: nat, u: Tree)
    requires Inv(p, t) && Linked(t) && Shares(p, t, s) && Linked(s) && IsBehind(s, t) && AnchoredAt(s, t, c)
    requires c < |MainPath(t)| && !Rises(p, t, c, limit, s) && RoundsLead(p, t, limit, s, n, u)
    ensures u.tip == s.tip && IsBehind(u, t) && u.tip != t.tip
    decreases n
  {
    hide Inv, Linked, Shares, AnchoredAt, Round, Rises;
    if n > 0 {
      var m: Tree :| Round(p, t, limit, s, m) && RoundsLead(p, t, limit, m, n - 1, u);
      StalledRound(p, t, limit, s, m, c);
      StalledForGood(p, t, limit, m, c, n - 1, u);
    } else {
      LowerIsOther(p, t, s);
    }
  }

  lemma LowerIsOther(p: Params, t: Tree, s: Tree)
    requires Inv(p, t) && Shares(p, t, s) && IsBehind(s, t)
    ensures s.tip != t.tip
  {
    hide Inv, Quiescent;
    InvLinked(p, t);
    SharesParts(p, t, s);
    HeaderHeight(p, s, s.tip);
    HeaderHeight(p, t, t.tip);
  }

  /** No number of rounds ever moves the tip. */
  ghost predicate Stuck(p: Params, t: Tree, limit: nat, s: Tree)
    requires Linked(t)
  {
    forall n: nat, u: Tree | RoundsLead(p, t, limit, s, n, u) :: u.tip == s.tip
  }

  /** A node that is behind is stuck if and only if neither the first reply nor a path of waiting blocks on top of it
      rises above its tip. */
  lemma StuckIffNothingRises(p: Params, t: Tree, limit: nat, s: Tree, c: nat)
    requires Inv(p, t) && Linked(t) && Shares(p, t, s) && Linked(s) && IsBehind(s, t) && AnchoredAt(s, t, c)
    ensures c < |MainPath(t)| && (Stuck(p, t, limit, s) <==> !Rises(p, t, c, limit, s))
  {
    hide Inv, Linked, Shares, AnchoredAt, Round, Rises;
    AnchorShared(p, s, t, c);
    if Rises(p, t, c, limit, s) {
      var m := RoundCompletes(p, t, limit, s, c);
      RoundTip(p, t, limit, s, m, c);
      assert RoundsLead(p, t, limit, m, 0, m);
      assert RoundsLead(p, t, limit, s, 1, m);
    } else {
      forall n: nat, u: Tree | RoundsLead(p, t, limit, s, n, u) ensures u.tip == s.tip {
        StalledForGood(p, t, limit, s, c, n, u);
      }
    }
  }

  /** So whatever waits, each round of a sequence raises the tip, or the node is stuck from then on. */
  lemma {:induction false} RisesOrStuck(p: Params, t: Tree, limit: nat, s: Tree, n: nat, u: Tree)
    requires Inv(p, t) && Linked(t) && Shares(p, t, s) && RoundsLead(p, t, limit, s, n, u)
    ensures Shares(p, t, u) && s.tip in s.height && u.tip in u.height
    ensures u.height[u.tip] >= s.height[s.tip] + n || Stuck(p, t, limit, u)
    decreases n
  {
    hide Inv, Linked, Shares, AnchoredAt, Round, Rises, Stuck;
    SharesParts(p, t, s);
    if n > 0 {
      var m: Tree :| Round(p, t, limit, s, m) && RoundsLead(p, t, limit, m, n - 1, u);
      RoundBehind(p, t, limit, s, m);
      var c := AnchorExists(p, s, t);
      AnchorShared(p, s, t, c);
      RoundTip(p, t, limit, s, m, c);
      RisesOrStuck(p, t, limit, m, n - 1, u);
      if !Rises(p, t, c, limit, s) {
        StuckIffNothingRises(p, t, limit, s, c);
        StuckLater(p, t, limit, s, n, u);
      }
    }
  }

  lemma RoundBehind(p: Params, t: Tree, limit: nat, s: Tree, m: Tree)
    requires Linked(t) && Round(p, t, limit, s, m)
    ensures Linked(s) && IsBehind(s, t)
  {}

  lemma {:induction false} RoundsConcat(p: Params, t: Tree, limit: nat, s: Tree, n: nat, m: Tree, k: nat, u: Tree)
    requires Linked(t) && RoundsLead(p, t, limit, s, n, m) && RoundsLead(p, t, limit, m, k, u)
    ensures RoundsLead(p, t, limit, s, n + k, u)
    decreases n
  {
    hide Round;
    if n > 0 {
      var x: Tree :| Round(p, t, limit, s, x) && RoundsLead(p, t, limit, x, n - 1, m);
      RoundsConcat(p, t, limit, x, n - 1, m, k, u);
      assert RoundsLead(p, t, limit, x, n + k - 1, u);
    }
  }

  lemma StuckLater(p: Params, t: Tree, limit: nat, s: Tree, n: nat, m: Tree)
    requires Linked(t) && Stuck(p, t, limit, s) && RoundsLead(p, t, limit, s, n, m)
    ensures Stuck(p, t, limit, m)
  {
    hide RoundsLead;
    forall k: nat, u: Tree | RoundsLead(p, t, limit, m, k, u) ensures u.tip == m.tip {
      RoundsConcat(p, t, limit, s, n, m, k, u);
    }
  }

  /** From the second such round on nothing changes at all, except that waiting blocks may be refused. */
  lemma StalledTreeIsFixed(p: Params, t: Tree, limit: nat, s: Tree, m: Tree, u: Tree, c: nat)
    requires Inv(p, t) && Linked(t) && Shares(p, t, s) && Linked(s) && AnchoredAt(s, t, c)
    requires c < |MainPath(t)| && s.tip in s.height && !Rises(p, t, c, limit, s)
    requires Round(p, t, limit, s, m) && Round(p, t, limit, m, u)
    ensures u == m.(orphans := u.orphans) && u.orphans.Keys <= m.orphans.Keys
  {
    hide Inv, Linked, AnchoredAt, Shares, Rises, Round, RoundEffect;
    StalledRound(p, t, limit, s, m, c);
    RoundParts(p, t, limit, s, m, c);
    StalledRound(p, t, limit, m, u, c);
    RoundParts(p, t, limit, m, u, c);
    HoldsSegment(p, t, c, limit, s, m);
    HeldRoundChangesNothing(p, t, c, limit, m, u);
  }

  lemma HoldsSegment(p: Params, t: Tree, c: nat, limit: nat, s: Tree, u: Tree)
    requires Linked(t) && RoundEffect(p, t, c, limit, s, u)
    ensures c < |MainPath(t)| && forall i | 0 <= i <= Min(c + limit, |MainPath(t)| - 1) :: MainPath(t)[i] in u.blocks
    ensures u.orphans.Keys <= s.orphans.Keys
  {
    hide Linked, Shares, Extends, TipEffect, Gained;
  }

  /** A round that names only held blocks and leaves the tip changes nothing but what waits. */
  lemma HeldRoundChangesNothing(p: Params, t: Tree, c: nat, limit: nat, m: Tree, u: Tree)
    requires Inv(p, t) && Linked(t) && Shares(p, t, m) && RoundEffect(p, t, c, limit, m, u) && u.tip == m.tip
    requires forall i | 0 <= i <= Min(c + limit, |MainPath(t)| - 1) :: MainPath(t)[i] in m.blocks
    ensures u == m.(orphans := u.orphans) && u.orphans.Keys <= m.orphans.Keys
  {
    hide Inv, Linked, Link, Shares, TipEffect, RoundEffect;
    HoldsSegment(p, t, c, limit, m, u);
    RoundShares(p, t, c, limit, m, u);
    SharesParts(p, t, m);
    SharesParts(p, t, u);
    RootParent(p, m);
    forall h | h in u.blocks ensures h in m.blocks {
      InTree(p, u, h);
      NothingNewIn(p, t, c, limit, m, u, h);
    }
    ExtendsKeeps(m, u);
    assert u.blocks == m.blocks;
    SameBlocksSameMaps(p, m, u);
  }

  lemma RootParent(p: Params, m: Tree)
    requires Inv(p, m)
    ensures m.genesis in m.parent
  {}

  /** A round that names only held blocks adds none. */
  lemma {:induction false} NothingNewIn(p: Params, t: Tree, c: nat, limit: nat, m: Tree, u: Tree, h: Hash)
    requires Inv(p, t) && Linked(t) && Shares(p, t, m) && RoundEffect(p, t, c, limit, m, u) && h in u.blocks
    requires h in u.height
    requires forall i | 0 <= i <= Min(c + limit, |MainPath(t)| - 1) :: MainPath(t)[i] in m.blocks
    ensures h in m.blocks
    decreases u.height[h]
  {
    hide Inv, Link, Linked, TipEffect, Consistent, Extends;
    var hi := Min(c + limit, |MainPath(t)| - 1);
    if h !in m.blocks {
      assert Gained(p, t, hi, m, u, h);
      SharesParts(p, t, m);
      SharesParts(p, t, u);
      HeldParent(p, m, u, h);
      NothingNewIn(p, t, c, limit, m, u, u.parent[h]);
      assert false;
    }
  }

  lemma HeldParent(p: Params, m: Tree, u: Tree, h: Hash)
    requires Inv(p, m) && Inv(p, u) && m.genesis == u.genesis && h in u.blocks && h !in m.blocks
    ensures h in u.parent && u.parent[h] in u.blocks && u.parent[h] in u.height && h in u.height
    ensures u.height[u.parent[h]] < u.height[h] && u.parent[h] == u.blocks[h].header.prevHash
  {
    HeldLink(p, u, h);
  }

  // ---------- reaching the peer's tip ----------

  /** Every waiting block that carries its real hash belongs to the peer's main chain. So it is when nothing waits,
      or the peer's announced blocks. */
  ghost predicate OnlyPeers(p: Params, t: Tree, s: Tree)
    requires Linked(t)
  {
    forall h | h in s.orphans && HashRight(p, Filed(p, s.orphans[h])) :: h in MainPath(t)
  }

  lemma OnlyPeersStays(p: Params, t: Tree, c: nat, limit: nat, s: Tree, u: Tree)
    requires Linked(t) && OnlyPeers(p, t, s) && RoundEffect(p, t, c, limit, s, u)
    ensures OnlyPeers(p, t, u) && (s.orphans == map[] ==> u.orphans == map[])
  {
    hide Shares, Extends, TipEffect, Linked;
  }

  /** Then a raised tip is a block of the peer's main chain at or above the reply's end; at its end if nothing waits. */
  lemma RaisedOntoChain(p: Params, t: Tree, c: nat, limit: nat, s: Tree, u: Tree) returns (at: nat)
    requires Inv(p, t) && Linked(t) && RoundEffect(p, t, c, limit, s, u) && OnlyPeers(p, t, s)
    requires Rises(p, t, c, limit, s)
    ensures at < |MainPath(t)| && u.tip == MainPath(t)[at] && Min(c + limit, |MainPath(t)| - 1) <= at
    ensures s.orphans == map[] ==> at == Min(c + limit, |MainPath(t)| - 1)
  {
    hide Inv, Link, Linked, Shares, Extends, Rises, OrphanPath, ValidSegment, Gained;
    var hi := Min(c + limit, |MainPath(t)| - 1);
    at := hi;
    RoundShares(p, t, c, limit, s, u);
    SharesParts(p, t, u);
    if u.tip != MainPath(t)[hi] {
      var path: seq<Block> :| OnTop(p, t, c, hi, s, path) && path[|path| - 1] == u.blocks[u.tip];
      EndWaited(p, t, c, hi, s, path);
      EndHashRight(p, t, u, u.tip);
      at :| 0 <= at < |MainPath(t)| && MainPath(t)[at] == u.tip;
      AtOwnHeight(p, t, u, at);
    }
  }

  lemma RoundShares(p: Params, t: Tree, c: nat, limit: nat, s: Tree, u: Tree)
    requires Linked(t) && RoundEffect(p, t, c, limit, s, u)
    ensures Shares(p, t, u) && Extends(s, u)
  {}

  lemma EndWaited(p: Params, t: Tree, c: nat, hi: nat, s: Tree, path: seq<Block>)
    requires Linked(t) && hi < |MainPath(t)| && OnTop(p, t, c, hi, s, path)
    ensures path != [] && s.orphans != map[]
    ensures var x := path[|path| - 1]; x.hash in s.orphans && Filed(p, s.orphans[x.hash]) == x
  {
    hide Linked, ValidSegment;
    var x := path[|path| - 1];
    assert x.hash in s.orphans;
  }

  lemma EndHashRight(p: Params, t: Tree, u: Tree, h: Hash)
    requires Inv(p, t) && Linked(t) && Inv(p, u) && h in u.blocks
    ensures HashRight(p, u.blocks[h]) && u.blocks[h].hash == h
  {
    hide Inv;
    HeldHashRight(p, u, h);
    HeaderHeight(p, u, h);
  }

  lemma AtOwnHeight(p: Params, t: Tree, u: Tree, at: nat)
    requires Inv(p, t) && Linked(t) && Shares(p, t, u) && at < |MainPath(t)| && MainPath(t)[at] in u.blocks
    ensures MainPath(t)[at] in u.height && u.height[MainPath(t)[at]] == at
  {
    hide Inv, Linked, Shares;
    BelowHeld(p, t, u, at, at);
  }

  lemma RoundTip(p: Params, t: Tree, limit: nat, s: Tree, u: Tree, c: nat)
    requires Inv(p, t) && Linked(t) && Shares(p, t, s) && Linked(s) && AnchoredAt(s, t, c) && Round(p, t, limit, s, u)
    ensures c < |MainPath(t)| && s.tip in s.height && u.tip in u.height && Shares(p, t, u) && Linked(u)
    ensures u.tip == s.tip <==> !Rises(p, t, c, limit, s)
    ensures u.height[u.tip] >= s.height[s.tip] + if Rises(p, t, c, limit, s) then 1 else 0
  {
    hide Inv, Linked, Shares, AnchoredAt, Rises, Gained, OnTop, Extends;
    RoundParts(p, t, limit, s, u, c);
  }

  lemma OnChainHeight(p: Params, t: Tree, s: Tree, at: nat)
    requires Inv(p, t) && Linked(t) && Shares(p, t, s) && at < |MainPath(t)| && s.tip == MainPath(t)[at]
    ensures s.tip in s.height && s.height[s.tip] == at && t.tip in t.height && |MainPath(t)| == t.height[t.tip] + 1
    ensures IsBehind(s, t) <==> at + 1 < |MainPath(t)|
    ensures s.tip == t.tip <==> at + 1 == |MainPath(t)|
  {
    hide Inv, Link, Linked;
    SharesParts(p, t, s);
    BelowHeld(p, t, s, at, at);
    TipIsTop(p, t);
    if s.tip == t.tip {
      PathDistinct(t, t.tip, at, |MainPath(t)| - 1);
    }
  }

  lemma TipIsTop(p: Params, t: Tree)
    requires Inv(p, t) && Linked(t)
    ensures t.tip in t.height && |MainPath(t)| == t.height[t.tip] + 1 && MainPath(t)[|MainPath(t)| - 1] == t.tip
  {}

  /** One round from a tip on the peer's main chain climbs it, by `limit` blocks or to its end at least. */
  lemma ClimbOne(p: Params, t: Tree, limit: nat, s: Tree, at: nat, u: Tree) returns (next: nat)
    requires Inv(p, t) && Linked(t) && Shares(p, t, s) && limit > 0 && at < |MainPath(t)| && s.tip == MainPath(t)[at]
    requires OnlyPeers(p, t, s) && Linked(s) && IsBehind(s, t) && Round(p, t, limit, s, u)
    ensures Shares(p, t, u) && OnlyPeers(p, t, u) && (s.orphans == map[] ==> u.orphans == map[])
    ensures next < |MainPath(t)| && u.tip == MainPath(t)[next] && Min(at + limit, |MainPath(t)| - 1) <= next
    ensures s.orphans == map[] ==> next == Min(at + limit, |MainPath(t)| - 1)
  {
    hide Inv, Linked, AnchoredAt, RoundEffect, Shares, OnTop, OnlyPeers;
    OnChainHeight(p, t, s, at);
    var c := AnchorExists(p, s, t);
    TipAnchored(p, s, t, at, c);
    RoundParts(p, t, limit, s, u, c);
    OnlyPeersStays(p, t, c, limit, s, u);
    next := RaisedOntoChain(p, t, c, limit, s, u);
  }

  /** From a tip on the peer's main chain, rounds climb it. */
  lemma {:induction false} ClimbsFromChain(p: Params, t: Tree, limit: nat, s: Tree, at: nat, n: nat, u: Tree)
    requires Inv(p, t) && Linked(t) && Shares(p, t, s) && limit > 0 && at < |MainPath(t)| && s.tip == MainPath(t)[at]
    requires OnlyPeers(p, t, s) && RoundsLead(p, t, limit, s, n, u)
    ensures var total := Rounds(|MainPath(t)| - 1 - at, limit);
            && n <= total && (n == total ==> u.tip == t.tip)
            && (s.orphans == map[] && u.tip == t.tip ==> n == total)
    decreases n
  {
    hide Inv, Linked, AnchoredAt, Round, RoundEffect, Shares, OnlyPeers;
    SharesParts(p, t, s);
    OnChainHeight(p, t, s, at);
    if n > 0 {
      var m: Tree :| Round(p, t, limit, s, m) && RoundsLead(p, t, limit, m, n - 1, u);
      RoundBehind(p, t, limit, s, m);
      var next := ClimbOne(p, t, limit, s, at, m);
      var top := |MainPath(t)| - 1;
      RoundsMonotone(top - next, top - Min(at + limit, top), limit);
      ClimbsFromChain(p, t, limit, m, next, n - 1, u);
    }
  }

  /** When the reply or a path of waiting blocks on top of it rises above the node's tip, rounds reach the peer's tip
      after at most this many; after exactly this many if nothing waits. */
  lemma ReachesAfterRounds(p: Params, t: Tree, limit: nat, s: Tree, c: nat, n: nat, u: Tree)
    requires Inv(p, t) && Linked(t) && Shares(p, t, s) && Linked(s) && IsBehind(s, t) && AnchoredAt(s, t, c)
    requires OnlyPeers(p, t, s) && c < |MainPath(t)| && Rises(p, t, c, limit, s) && RoundsLead(p, t, limit, s, n, u)
    ensures limit > 0
    ensures var total := 1 + Rounds(|MainPath(t)| - 1 - Min(c + limit, |MainPath(t)| - 1), limit);
            && n <= total && (n == total ==> u.tip == t.tip)
            && (s.orphans == map[] && u.tip == t.tip ==> n == total)
  {
    hide Inv, Linked, AnchoredAt, Round, RoundEffect, Shares, Rounds, OnlyPeers, Rises;
    SharesParts(p, t, s);
    AnchorShared(p, s, t, c);
    RisingNeedsBlocks(p, t, c, limit, s);
    if n > 0 {
      var m: Tree :| Round(p, t, limit, s, m) && RoundsLead(p, t, limit, m, n - 1, u);
      RoundParts(p, t, limit, s, m, c);
      OnlyPeersStays(p, t, c, limit, s, m);
      var at := RaisedOntoChain(p, t, c, limit, s, m);
      var top := |MainPath(t)| - 1;
      RoundsMonotone(top - at, top - Min(c + limit, top), limit);
      ClimbsFromChain(p, t, limit, m, at, n - 1, u);
    } else {
      LowerIsOther(p, t, s);
    }
  }

  lemma RisingNeedsBlocks(p: Params, t: Tree, c: nat, limit: nat, s: Tree)
    requires Linked(t) && s.tip in s.height && c < |MainPath(t)| && c <= s.height[s.tip] && Rises(p, t, c, limit, s)
    ensures limit > 0
  {
    hide Linked, OrphanPath;
  }

  /** Rounds can go on while the node is behind. */
  lemma {:induction false} RoundsExist(p: Params, t: Tree, limit: nat, s: Tree, at: nat) returns (n: nat, u: Tree)
    requires Inv(p, t) && Linked(t) && Shares(p, t, s) && limit > 0 && at < |MainPath(t)| && s.tip == MainPath(t)[at]
    requires OnlyPeers(p, t, s)
    ensures RoundsLead(p, t, limit, s, n, u) && u.tip == t.tip
    decreases |MainPath(t)| - at
  {
    hide Inv, Linked, AnchoredAt, Round, RoundEffect, Shares, OnlyPeers;
    SharesParts(p, t, s);
    OnChainHeight(p, t, s, at);
    if at + 1 == |MainPath(t)| {
      n, u := 0, s;
    } else {
      var c := AnchorExists(p, s, t);
      var m := RoundCompletes(p, t, limit, s, c);
      var next := ClimbOne(p, t, limit, s, at, m);
      var k;
      k, u := RoundsExist(p, t, limit, m, next);
      n := k + 1;
    }
  }

  /** A node that is behind an honest peer, and for which only the peer's blocks wait, can reach the peer's tip by fully
      answered rounds if and only if the first reply, or a path of waiting blocks on top of it, rises above its tip. */
  lemma ReachesIffReplyRises(p: Params, t: Tree, limit: nat, s: Tree, c: nat)
    requires Inv(p, t) && Linked(t) && Shares(p, t, s) && Linked(s) && IsBehind(s, t) && AnchoredAt(s, t, c)
    requires OnlyPeers(p, t, s)
    ensures c < |MainPath(t)|
    ensures (exists n: nat, u: Tree :: RoundsLead(p, t, limit, s, n, u) && u.tip == t.tip) <==>
              Rises(p, t, c, limit, s)
  {
    hide Inv, Linked, AnchoredAt, Round, RoundEffect, Shares, OnlyPeers, Rises;
    AnchorShared(p, s, t, c);
    if Rises(p, t, c, limit, s) {
      RisingNeedsBlocks(p, t, c, limit, s);
      var m := RoundCompletes(p, t, limit, s, c);
      RoundParts(p, t, limit, s, m, c);
      OnlyPeersStays(p, t, c, limit, s, m);
      var at := RaisedOntoChain(p, t, c, limit, s, m);
      var k, u := RoundsExist(p, t, limit, m, at);
      assert RoundsLead(p, t, limit, s, k + 1, u);
    } else {
      forall n: nat, u: Tree | RoundsLead(p, t, limit, s, n, u) ensures u.tip != t.tip {
        StalledForGood(p, t, limit, s, c, n, u);
      }
    }
  }

  /** When nothing waits, only the reply can rise. */
  lemma NothingWaitsRises(p: Params, t: Tree, c: nat, limit: nat, s: Tree)
    requires Linked(t) && s.tip in s.height && c < |MainPath(t)| && s.orphans == map[] && IsBehind(s, t)
    requires |MainPath(t)| == t.height[t.tip] + 1
    ensures Rises(p, t, c, limit, s) <==> c + limit > s.height[s.tip]
  {
    hide Linked;
    var hi := Min(c + limit, |MainPath(t)| - 1);
    forall path: seq<Block> ensures !OnTop(p, t, c, hi, s, path) {
      if OnTop(p, t, c, hi, s, path) {
        EndWaited(p, t, c, hi, s, path);
      }
    }
  }

  // ---------- in terms of the fork's depth ----------

  lemma DepthMonotone(j: nat, k: nat)
    requires j <= k
    ensures Depth(j) <= Depth(k)
  {
    if j < k {
      DepthRises(j, k);
    }
  }

  /** With the default of 2000 headers a node that is behind is stuck exactly when it is at least 2000 blocks high and
      the fork is more than 1032 blocks below its tip: the locator then skips from depth 1032 to depth 2056. */
  lemma StuckIffForkDeep(p: Params, t: Tree, s: Tree, c: nat)
    requires Inv(p, t) && Linked(t) && Shares(p, t, s) && Linked(s) && IsBehind(s, t) && AnchoredAt(s, t, c)
    ensures var top := s.height[s.tip];
            c + 2000 <= top <==> top >= 2000 && top - ForkHeight(s, t) > 1032
  {
    hide Inv, Linked, IsBehind, Shares, IsLocator, IsAnchor, Depth;
    SharesParts(p, t, s);
    var x :| IsLocator(MainPath(s), 32, x) && IsAnchor(MainPath(t), x, c);
    BelowForkShared(s, t, ForkHeight(s, t));
    var top := s.height[s.tip];
    var d := top - ForkHeight(s, t);
    DepthValues();
    if d <= Depth(31) {
      var k := FirstEntry(s, x, d);
      AnchorAtEntry(s, t, 32, x, c, k);
      if d > 1032 {
        if k < 20 { DepthMonotone(k, 19); }
        DepthMonotone(20, k);
      } else {
        DepthMonotone(k, 19);
      }
    } else {
      NoEntryShared(s, t, x, c, d);
    }
  }

  lemma DepthValues()
    ensures Depth(19) == 1032 && Depth(20) == 2056 && Depth(31) == 8 + Pow.Pow2(22) && Pow.Pow2(22) > 4000
  {
    PowSteps();
  }

  lemma PowSteps()
    ensures Pow.Pow2(10) == 1024 && Pow.Pow2(11) == 2048 && Pow.Pow2(12) == 4096 && Pow.Pow2(22) >= 4096
  {
    assert Pow.Pow2(2) == 4 && Pow.Pow2(4) == 16 && Pow.Pow2(6) == 64 && Pow.Pow2(8) == 256;
    assert Pow.Pow2(10) == 1024 && Pow.Pow2(12) == 4096;
    Pow.Pow2Monotone(12, 22);
  }

  lemma FirstEntry(s: Tree, x: seq<Hash>, d: nat) returns (k: nat)
    requires Linked(s) && IsLocator(MainPath(s), 32, x) && d <= |MainPath(s)| - 1 && d <= Depth(31)
    ensures k < |x| && Depth(k) >= d && forall j | 0 <= j < k :: Depth(j) < d
  {
    hide Depth;
    k := FirstAtOrBelow(32, |x|, |MainPath(s)| - 1, d);
  }

  /** A fork deeper than the whole locator leaves only genesis. */
  lemma NoEntryShared(s: Tree, t: Tree, x: seq<Hash>, c: nat, d: nat)
    requires Linked(s) && Linked(t) && Consistent(s, t) && IsLocator(MainPath(s), 32, x) && IsAnchor(MainPath(t), x, c)
    requires ForkHeight(s, t) <= s.height[s.tip] && d == s.height[s.tip] - ForkHeight(s, t) && d > Depth(31)
    ensures c == 0
  {
    hide Depth;
    var top := s.height[s.tip];
    forall k | 0 <= k < |x| ensures x[k] !in MainPath(t) {
      DepthMonotone(k, 31);
      AboveForkNotShared(s, t, top - Min(top, Depth(k)));
    }
  }

  /** The smallest stuck node: one header per reply, and a fork one block deep. */
  lemma StalledInstance(zero: Hash, hs: seq<Hash>) returns (p: Params, t: Tree, s: Tree)
    requires |hs| == 4 && Order.Apart(zero, hs)
    ensures Inv(p, t) && Linked(t) && Shares(p, t, s) && Linked(s) && IsBehind(s, t)
    ensures AnchoredAt(s, t, 0) && 0 + 1 <= s.height[s.tip] && |MainPath(s)| == 2
    ensures forall n: nat, u: Tree :: RoundsLead(p, t, 1, s, n, u) ==> u.tip != t.tip
  {
    hide Inv, Linked, AnchoredAt, Round, RoundsLead;
    var g, left, right, b;
    p, s, t, g, left, right, b := TwoNodes(zero, hs);
    GenesisAnchor(s, t, g.hash, left.hash);
    forall n: nat, u: Tree | RoundsLead(p, t, 1, s, n, u) ensures u.tip != t.tip {
      StalledForGood(p, t, 1, s, 0, n, u);
    }
  }

  /** Waiting blocks make a difference: the same two nodes, but the peer's announced tip waits at the lower one. The
      reply still ends no higher than the node's tip, and yet rounds reach the peer's. */
  lemma WaitingTipInstance(zero: Hash, hs: seq<Hash>) returns (p: Params, t: Tree, s: Tree)
    requires |hs| == 4 && Order.Apart(zero, hs)
    ensures Inv(p, t) && Linked(t) && Shares(p, t, s) && Linked(s) && IsBehind(s, t) && OnlyPeers(p, t, s)
    ensures AnchoredAt(s, t, 0) && 0 + 1 <= s.height[s.tip] && s.orphans.Keys == {t.tip}
    ensures exists n: nat, u: Tree :: RoundsLead(p, t, 1, s, n, u) && u.tip == t.tip
  {
    hide Inv, Linked, AnchoredAt, Round, RoundsLead, Validate, Rises;
    var g, left, right, b, s0;
    p, s0, t, g, left, right, b := TwoNodes(zero, hs);
    MainBlock(p, t, 2);
    MainBlock(p, t, 1);
    MainBlock(p, t, 0);
    PathEnd(t);
    Order.NothingWaits(s0);
    s := Order.ParkStep(p, s0, b);
    InvLinked(p, s);
    PathFrame(s0, s, s0.tip);
    GenesisAnchor(s, t, g.hash, left.hash);
    OneOnTop(p, t, s, b);
    ReachesIffReplyRises(p, t, 1, s, 0);
  }

  /** A valid block waiting for the peer's first block rises with it. */
  lemma OneOnTop(p: Params, t: Tree, s: Tree, x: Block)
    requires Inv(p, t) && Linked(t) && |MainPath(t)| > 1 && x.hash !in MainPath(t)[..2]
    requires x.hash in s.orphans && Filed(p, s.orphans[x.hash]) == x && x.hash !in s.blocks
    requires Validate(p, x, MainChain(t)[1], x.hash).None? && s.tip in s.height && s.height[s.tip] < x.header.height
    ensures Rises(p, t, 0, 1, s)
  {
    hide Inv, Linked, Validate;
    MainBlock(p, t, 1);
    InPrefix(MainPath(t), 1, 1);
    var path := [MainChain(t)[1], x];
    assert path[1] == x;
    assert OrphanPath(p, s, MainChain(t)[1], path);
    assert OnTop(p, t, 0, 1, s, path);
  }

  lemma PathEnd(t: Tree)
    requires Linked(t)
    ensures |MainPath(t)| > 0 && MainPath(t)[|MainPath(t)| - 1] == t.tip
  {}

  /** And it must be the peer's blocks that wait: a valid block of another branch can raise the tip once, to where the
      node is stuck below the peer for good. */
  lemma ForeignBlockInstance(zero: Hash, hs: seq<Hash>) returns (p: Params, t: Tree, s: Tree)
    requires |hs| == 6 && Order.Apart(zero, hs)
    ensures Inv(p, t) && Linked(t) && Shares(p, t, s) && Linked(s) && IsBehind(s, t) && |s.orphans| == 1
    ensures AnchoredAt(s, t, 0) && |MainPath(t)| == 4 && Rises(p, t, 0, 1, s)
    ensures forall n: nat, u: Tree :: RoundsLead(p, t, 1, s, n, u) ==> u.tip != t.tip
  {
    hide Inv, Linked, AnchoredAt, Round, RoundsLead, Validate, Shares, Rises;
    var g, left, right, b2, b3, x;
    p, s, t, g, left, right, b2, b3, x := ForeignWaits(zero, hs);
    ForeignRises(p, s, t, g, left, right, b2, b3, x);
    forall n: nat, u: Tree | RoundsLead(p, t, 1, s, n, u) ensures u.tip != t.tip {
      ForeignRounds(p, s, t, g, left, right, b2, b3, x, n, u);
    }
  }

  lemma ForeignRises(p: Params, s: Tree, t: Tree, g: Block, left: Block, right: Block, b2: Block, b3: Block, x: Block)
    requires Foreign(p, s, t, g, left, right, b2, b3, x)
    ensures Shares(p, t, s) && IsBehind(s, t) && AnchoredAt(s, t, 0) && Rises(p, t, 0, 1, s)
  {
    hide Inv, Linked, AnchoredAt, Validate, Rises;
    MainBlock(p, t, 1);
    GenesisAnchor(s, t, g.hash, left.hash);
    assert MainPath(t)[..2] == [g.hash, right.hash];
    OneOnTop(p, t, s, x);
  }

  /** The first round moves the tip to the foreign block. */
  lemma ForeignTip(p: Params, s: Tree, t: Tree, g: Block, left: Block, right: Block, b2: Block, b3: Block, x: Block,
                   m: Tree)
    requires Foreign(p, s, t, g, left, right, b2, b3, x) && Rises(p, t, 0, 1, s) && RoundEffect(p, t, 0, 1, s, m)
    ensures Shares(p, t, m) && Linked(m) && m.tip == x.hash && x.hash in m.blocks && m.blocks[x.hash] == x
    ensures m.tip in m.height && m.height[m.tip] == 2 && MainPath(m) == [g.hash, right.hash, x.hash]
    ensures m.orphans.Keys <= {x.hash}
  {
    hide Inv, Linked, Validate, Rises, OnTop, Extends, Shares, RoundEffect, TipEffect;
    HoldsSegment(p, t, 0, 1, s, m);
    RoundShares(p, t, 0, 1, s, m);
    SharesParts(p, t, m);
    MainBlock(p, t, 1);
    AtOwnHeight(p, t, m, 1);
    HeaderAgrees(p, t, m, right.hash);
    var path := TipOnTop(p, t, s, m);
    EndWaited(p, t, 0, 1, s, path);
    HeaderHeight(p, m, m.tip);
    ThreeBlockPath(p, m, right.hash, x.hash);
  }

  lemma TipOnTop(p: Params, t: Tree, s: Tree, m: Tree) returns (path: seq<Block>)
    requires Linked(t) && |MainPath(t)| > 1 && RoundEffect(p, t, 0, 1, s, m) && Rises(p, t, 0, 1, s)
    requires MainPath(t)[1] in m.height && m.height[MainPath(t)[1]] <= s.height[s.tip]
    ensures OnTop(p, t, 0, 1, s, path) && path != [] && m.tip in m.blocks && path[|path| - 1] == m.blocks[m.tip]
  {
    hide Linked, Shares, Extends, Rises, OrphanPath, Gained;
    path :| OnTop(p, t, 0, 1, s, path) && path[|path| - 1] == m.blocks[m.tip];
  }

  lemma ForeignRounds(p: Params, s: Tree, t: Tree, g: Block, left: Block, right: Block, b2: Block, b3: Block, x: Block,
                      n: nat, u: Tree)
    requires Foreign(p, s, t, g, left, right, b2, b3, x) && RoundsLead(p, t, 1, s, n, u)
    ensures u.tip != t.tip
  {
    hide Inv, Linked, AnchoredAt, Round, Validate, Rises, Shares, RoundEffect;
    ForeignRises(p, s, t, g, left, right, b2, b3, x);
    if n == 0 {
      LowerIsOther(p, t, s);
    } else {
      var m: Tree :| Round(p, t, 1, s, m) && RoundsLead(p, t, 1, m, n - 1, u);
      RoundParts(p, t, 1, s, m, 0);
      ForeignTip(p, s, t, g, left, right, b2, b3, x, m);
      ForeignAnchor(m, t, g.hash, right.hash, b2.hash, b3.hash, x.hash);
      ForeignStalls(p, t, m, x);
      StalledForGood(p, t, 1, m, 1, n - 1, u);
    }
  }

  lemma ForeignStalls(p: Params, t: Tree, m: Tree, x: Block)
    requires Linked(t) && |MainPath(t)| == 4 && m.tip in m.height && m.height[m.tip] == 2
    requires x.hash in m.blocks && m.orphans.Keys <= {x.hash}
    ensures !Rises(p, t, 1, 1, m)
  {
    hide Linked, ValidSegment;
    forall path: seq<Block> ensures !OnTop(p, t, 1, 2, m, path) {
      if OnTop(p, t, 1, 2, m, path) {
        EndWaited(p, t, 1, 2, m, path);
      }
    }
  }

  lemma ForeignAnchor(m: Tree, t: Tree, g: Hash, right: Hash, b2: Hash, b3: Hash, x: Hash)
    requires Linked(m) && Linked(t) && MainPath(m) == [g, right, x] && MainPath(t) == [g, right, b2, b3]
    requires x !in {g, right, b2, b3}
    ensures AnchoredAt(m, t, 1)
  {
    var y := [x, right, g];
    assert Depth(0) == 0 && Depth(1) == 1 && Depth(2) == 2;
    assert IsLocator(MainPath(m), 32, y);
    assert y[1] == MainPath(t)[1] && y[0] !in MainPath(t);
    assert IsAnchor(MainPath(t), y, 1);
  }

  lemma GenesisAnchor(s: Tree, t: Tree, g: Hash, left: Hash)
    requires Linked(s) && Linked(t) && MainPath(s) == [g, left]
    requires g in MainPath(t) && MainPath(t)[0] == g && left !in MainPath(t)
    ensures AnchoredAt(s, t, 0)
  {
    var x := [left, g];
    assert Depth(0) == 0 && Depth(1) == 1;
    assert IsLocator(MainPath(s), 32, x);
    assert x[1] == MainPath(t)[0];
    assert IsAnchor(MainPath(t), x, 0);
  }
}
