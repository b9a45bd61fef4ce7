/** The block tree as a value: what one block submission does to it, and what every
    reachable tree looks like. The class in Chain.dfy is proved against these functions. */
module Tree {
  import opened Types
  import Pow

  datatype Params = Params(crypto: Crypto, difficulty: nat)

  datatype AddError =
    | UnexpectedGenesis | DifficultyMismatch | HeightMismatch | PrevHashMismatch
    | TimestampRegression | TxRootMismatch | HashMismatch | PowTooWeak

  datatype Reorg = Reorg(commonAncestor: Hash, removed: seq<Block>, added: seq<Block>)

  datatype AddResult = AddResult(
    added: bool, isNewTip: bool, oldTip: Hash, newTip: Hash, reorg: Option<Reorg>)

  datatype Tree = Tree(
    blocks: map<Hash, Block>,
    parent: map<Hash, Hash>,
    cumWork: map<Hash, nat>,
    height: map<Hash, nat>,
    tip: Hash,
    genesis: Hash,
    orphans: map<Hash, Block>)

  datatype Outcome = Outcome(tree: Tree, res: AddResult, err: Option<AddError>)

  // ---------- one block ----------

  /** The hash a block is filed under: the one it carries, computed when absent. */
  function BlockHash(c: Crypto, b: Block): Hash {
    if b.hash == c.zero then c.hashHeader(b.header, b.nonce) else b.hash
  }

  /** A block as the chain files it, its hash filled in. */
  function Filed(p: Params, b: Block): Block {
    b.(hash := BlockHash(p.crypto, b))
  }

  /** The block carries the hash its header and nonce really have. */
  ghost predicate HashRight(p: Params, b: Block) {
    p.crypto.hashHeader(b.header, b.nonce) == b.hash
  }

  /** The checks a block must pass against its parent, in the order they are made. */
  function Validate(p: Params, b: Block, parent: Block, h: Hash): Option<AddError> {
    if b.header.difficulty != p.difficulty then Some(DifficultyMismatch)
    else if b.header.height != parent.header.height + 1 then Some(HeightMismatch)
    else if b.header.prevHash != parent.hash then Some(PrevHashMismatch)
    else if b.header.timestamp < parent.header.timestamp then Some(TimestampRegression)
    else if Pow.HashTransactions(p.crypto, b.txs) != b.header.txRoot then Some(TxRootMismatch)
    else if p.crypto.hashHeader(b.header, b.nonce) != h then Some(HashMismatch)
    else if !Pow.MeetsDifficulty(p.crypto.bytes(h), p.difficulty) then Some(PowTooWeak)
    else None
  }

  lemma ValidateIgnoresHashField(p: Params, b: Block, x: Hash, parent: Block, h: Hash)
    ensures Validate(p, b.(hash := x), parent, h) == Validate(p, b, parent, h)
  {}

  lemma SameHeaderSameVerdict(p: Params, b: Block, q: Block, r: Block, h: Hash)
    requires q.header == r.header && q.hash == r.hash
    ensures Validate(p, b, q, h) == Validate(p, b, r, h)
  {}

  // ---------- the shape of a tree ----------

  /** `h` hangs off its parent: one step higher, and filed consistently in every map. */
  ghost predicate Link(s: Tree, h: Hash) {
    && h in s.blocks && h in s.parent && h in s.height && h in s.cumWork
    && s.parent[h] in s.blocks && s.parent[h] in s.height && s.parent[h] in s.cumWork
    && s.height[h] == s.height[s.parent[h]] + 1
    && s.blocks[h].hash == h
    && s.blocks[h].header.prevHash == s.parent[h]
    && s.blocks[h].header.height == s.height[h]
  }

  ghost predicate Linked(s: Tree) {
    && s.parent.Keys == s.blocks.Keys && s.height.Keys == s.blocks.Keys && s.cumWork.Keys == s.blocks.Keys
    && s.tip in s.blocks
    && s.genesis in s.blocks && s.height[s.genesis] == 0
    && s.blocks[s.genesis].hash == s.genesis && s.blocks[s.genesis].header.height == 0
    && forall h {:trigger Link(s, h)} | h in s.blocks && h != s.genesis :: Link(s, h)
  }

  /** `h` passed validation against its parent and adds one block's work to it. */
  ghost predicate Earned(p: Params, s: Tree, h: Hash) {
    && Link(s, h)
    && Validate(p, s.blocks[h], s.blocks[s.parent[h]], h).None?
    && s.cumWork[h] == s.cumWork[s.parent[h]] + Pow.WorkForDifficulty(p.difficulty)
  }

  ghost predicate OrphanOk(p: Params, s: Tree, h: Hash) {
    h in s.orphans ==> s.orphans[h].header.height > 0 && BlockHash(p.crypto, s.orphans[h]) == h
  }

  /** What holds of the chain's maps between any two steps. */
  ghost predicate Inv(p: Params, s: Tree) {
    && p.crypto.Valid()
    && Linked(s)
    && s.cumWork[s.genesis] == 0
    && (var g := s.blocks[s.genesis];
        && p.crypto.hashHeader(g.header, g.nonce) == s.genesis
        && Pow.HashTransactions(p.crypto, g.txs) == g.header.txRoot)
    && (forall h {:trigger Earned(p, s, h)} | h in s.blocks && h != s.genesis :: Earned(p, s, h))
    && (forall h {:trigger s.cumWork[h]} | h in s.cumWork :: s.cumWork[h] <= s.cumWork[s.tip])
    && (forall h {:trigger OrphanOk(p, s, h)} :: OrphanOk(p, s, h))
  }

  lemma InvLinked(p: Params, s: Tree)
    requires Inv(p, s)
    ensures Linked(s) && s.tip in s.blocks && s.genesis in s.blocks
  {}

  /** No orphan is waiting for a block the tree already holds. */
  ghost predicate Quiescent(s: Tree) {
    forall h | h in s.orphans :: s.orphans[h].header.prevHash !in s.blocks
  }

  // ---------- paths ----------

  /** The hashes from genesis up to `h`. */
  ghost function Path(s: Tree, h: Hash): (r: seq<Hash>)
    requires Linked(s) && h in s.blocks
    ensures |r| == s.height[h] + 1 && r[0] == s.genesis && r[|r| - 1] == h
    ensures forall x | x in r :: x in s.blocks
    decreases s.height[h]
  {
    if h == s.genesis then [h]
    else assert Link(s, h); Path(s, s.parent[h]) + [h]
  }

  ghost function BlocksAt(s: Tree, hs: seq<Hash>): (r: seq<Block>)
    requires forall x | x in hs :: x in s.blocks
    ensures |r| == |hs|
  {
    seq(|hs|, i requires 0 <= i < |hs| => s.blocks[hs[i]])
  }

  ghost function MainPath(s: Tree): seq<Hash>
    requires Linked(s)
  {
    Path(s, s.tip)
  }

  /** The main chain, oldest to newest. */
  ghost function MainChain(s: Tree): seq<Block>
    requires Linked(s)
  {
    BlocksAt(s, MainPath(s))
  }

  lemma {:induction false} PathPrefix(s: Tree, h: Hash, i: nat)
    requires Linked(s) && h in s.blocks && i <= s.height[h]
    ensures var r := Path(s, h); r[i] in s.blocks && s.height[r[i]] == i && r[..i + 1] == Path(s, r[i])
    decreases s.height[h]
  {
    if i < s.height[h] {
      assert Link(s, h);
      PathPrefix(s, s.parent[h], i);
      assert Path(s, h)[..i + 1] == Path(s, s.parent[h])[..i + 1];
    } else {
      assert Path(s, h)[..i + 1] == Path(s, h);
    }
  }

  lemma PathStep(s: Tree, h: Hash, i: nat)
    requires Linked(s) && h in s.blocks && 0 < i <= s.height[h]
    ensures var r := Path(s, h);
            r[i] in s.blocks && r[i] != s.genesis && Link(s, r[i]) && s.parent[r[i]] == r[i - 1]
  {
    PathPrefix(s, h, i);
    var r := Path(s, h);
    assert r[i - 1] == r[..i + 1][i - 1];
    assert Link(s, r[i]);
  }

  /** Two paths that meet at one height agree below it. */
  lemma PathsMeet(s: Tree, a: Hash, b: Hash, i: nat)
    requires Linked(s) && a in s.blocks && b in s.blocks && i <= s.height[a] && i <= s.height[b]
    requires Path(s, a)[i] == Path(s, b)[i]
    ensures Path(s, a)[..i + 1] == Path(s, b)[..i + 1]
  {
    PathPrefix(s, a, i);
    PathPrefix(s, b, i);
  }

  lemma PathDistinct(s: Tree, h: Hash, i: nat, j: nat)
    requires Linked(s) && h in s.blocks && i <= s.height[h] && j <= s.height[h]
    requires Path(s, h)[i] == Path(s, h)[j]
    ensures i == j
  {
    PathPrefix(s, h, i);
    PathPrefix(s, h, j);
  }

  /** Every block carries exactly its height's worth of work. */
  lemma {:induction false} WorkIsHeightTimesUnit(p: Params, s: Tree, h: Hash)
    requires Inv(p, s) && h in s.blocks
    ensures s.cumWork[h] == s.height[h] * Pow.WorkForDifficulty(p.difficulty)
    decreases s.height[h]
  {
    if h != s.genesis {
      assert Earned(p, s, h);
      WorkIsHeightTimesUnit(p, s, s.parent[h]);
      MulSucc(s.height[s.parent[h]], Pow.WorkForDifficulty(p.difficulty));
    } else {
      assert s.height[h] == 0;
    }
  }

  /** So the tip is a highest block. */
  lemma TipIsHighest(p: Params, s: Tree, h: Hash)
    requires Inv(p, s) && h in s.blocks
    ensures s.height[h] <= s.height[s.tip]
  {
    WorkIsHeightTimesUnit(p, s, h);
    WorkIsHeightTimesUnit(p, s, s.tip);
    MulCompare(s.height[h], s.height[s.tip], Pow.WorkForDifficulty(p.difficulty));
    assert s.cumWork[h] <= s.cumWork[s.tip];
  }

  lemma MulSucc(n: nat, w: nat)
    ensures (n + 1) * w == n * w + w
  {}

  lemma MulCompare(a: nat, b: nat, w: nat)
    requires w > 0
    ensures a * w <= b * w <==> a <= b
  {
    if a > b {
      MulMono(b + 1, a, w);
      assert (b + 1) * w == b * w + w;
    } else {
      MulMono(a, b, w);
    }
  }

  lemma MulMono(a: nat, b: nat, w: nat)
    requires a <= b
    ensures a * w <= b * w
  {
    assert (b - a) * w >= 0;
    assert b * w == a * w + (b - a) * w;
  }

  // ---------- growth ----------

  ghost predicate Submap<K, V>(m: map<K, V>, n: map<K, V>) {
    m.Keys <= n.Keys && forall k {:trigger n[k]} | k in m :: n[k] == m[k]
  }

  /** `t` holds everything `s` holds, unchanged; orphans only leave. */
  ghost predicate Extends(s: Tree, t: Tree) {
    && s.genesis == t.genesis
    && Submap(s.blocks, t.blocks) && Submap(s.parent, t.parent)
    && Submap(s.height, t.height) && Submap(s.cumWork, t.cumWork)
  }

  lemma {:induction false} PathFrame(s: Tree, t: Tree, h: Hash)
    requires Linked(s) && Linked(t) && Extends(s, t) && h in s.blocks
    ensures h in t.blocks && Path(t, h) == Path(s, h)
    ensures BlocksAt(t, Path(t, h)) == BlocksAt(s, Path(s, h))
    decreases s.height[h]
  {
    if h != s.genesis {
      assert Link(s, h) && Link(t, h);
      assert t.parent[h] == s.parent[h];
      PathFrame(s, t, s.parent[h]);
    }
  }

  // ---------- reorganisations ----------

  /** Length of the longest common prefix. */
  ghost function CommonLength(a: seq<Hash>, b: seq<Hash>): (n: nat)
    ensures n <= |a| && n <= |b| && a[..n] == b[..n]
    ensures n == |a| || n == |b| || a[n] != b[n]
  {
    if a == [] || b == [] || a[0] != b[0] then 0
    else
      var n := CommonLength(a[1..], b[1..]);
      assert a[..n + 1] == [a[0]] + a[1..][..n] && b[..n + 1] == [b[0]] + b[1..][..n];
      n + 1
  }

  lemma CommonLengthIs(a: seq<Hash>, b: seq<Hash>, n: nat)
    requires n <= |a| && n <= |b| && a[..n] == b[..n]
    requires n == |a| || n == |b| || a[n] != b[n]
    ensures CommonLength(a, b) == n
  {
    var m := CommonLength(a, b);
    assert forall i | 0 <= i < n :: a[i] == a[..n][i] == b[..n][i] == b[i];
    assert forall i | 0 <= i < m :: a[i] == a[..m][i] == b[..m][i] == b[i];
  }

  /** Where two chains part, and the blocks on either side, oldest to newest. */
  ghost function Difference(s: Tree, a: Hash, b: Hash): Reorg
    requires Linked(s) && a in s.blocks && b in s.blocks
  {
    var pa, pb := Path(s, a), Path(s, b);
    var k := CommonLength(pa, pb);
    assert pa[0] == pb[0];
    Reorg(pa[k - 1], BlocksAt(s, pa[k..]), BlocksAt(s, pb[k..]))
  }

  /** What is reported when the tip moves from `a` to `b`: nothing unless some block leaves. */
  ghost function ReorgOf(s: Tree, a: Hash, b: Hash): Option<Reorg>
    requires Linked(s) && a in s.blocks && b in s.blocks
  {
    var d := Difference(s, a, b);
    if d.removed == [] then None else Some(d)
  }

  // ---------- one submission ----------

  /** The tree with a validated block filed under `h`, and the tip moved if it is strictly heavier. */
  ghost function Insert(p: Params, s: Tree, b: Block, h: Hash): (t: Tree)
    requires Inv(p, s) && h !in s.blocks && b.header.height > 0 && b.header.prevHash in s.blocks
    requires Validate(p, b, s.blocks[b.header.prevHash], h).None?
    ensures Inv(p, t) && Extends(s, t)
  {
    var q := b.header.prevHash;
    var w := s.cumWork[q] + Pow.WorkForDifficulty(p.difficulty);
    var t := s.(blocks := s.blocks[h := b.(hash := h)],
                parent := s.parent[h := q],
                height := s.height[h := b.header.height],
                cumWork := s.cumWork[h := w],
                tip := if w > s.cumWork[s.tip] then h else s.tip);
    InsertKeepsInv(p, s, b, h, t);
    t
  }

  lemma InsertKeepsInv(p: Params, s: Tree, b: Block, h: Hash, t: Tree)
    requires Inv(p, s) && h !in s.blocks && b.header.height > 0 && b.header.prevHash in s.blocks
    requires Validate(p, b, s.blocks[b.header.prevHash], h).None?
    requires var q := b.header.prevHash;
             var w := s.cumWork[q] + Pow.WorkForDifficulty(p.difficulty);
             t == s.(blocks := s.blocks[h := b.(hash := h)],
                     parent := s.parent[h := q],
                     height := s.height[h := b.header.height],
                     cumWork := s.cumWork[h := w],
                     tip := if w > s.cumWork[s.tip] then h else s.tip)
    ensures Inv(p, t) && Extends(s, t)
  {
    hide Validate, Link, Earned;
    forall k | k in t.blocks && k != t.genesis ensures Link(t, k) && Earned(p, t, k) {
      if k != h {
        assert Link(s, k) && Earned(p, s, k);
        LinkStays(p, s, t, k, h);
      } else {
        InsertLinks(p, s, b, h, t);
      }
    }
    forall k ensures OrphanOk(p, t, k) {
      assert OrphanOk(p, s, k);
    }
    forall k | k in t.cumWork ensures t.cumWork[k] <= t.cumWork[t.tip] {
      if k != h {
        assert s.cumWork[k] <= s.cumWork[s.tip];
      }
    }
  }

  lemma LinkStays(p: Params, s: Tree, t: Tree, k: Hash, h: Hash)
    requires Link(s, k) && Earned(p, s, k) && h !in s.blocks && k != h
    requires forall x | x != h ::
               && (x in s.blocks ==> x in t.blocks && t.blocks[x] == s.blocks[x])
               && (x in s.parent ==> x in t.parent && t.parent[x] == s.parent[x])
               && (x in s.height ==> x in t.height && t.height[x] == s.height[x])
               && (x in s.cumWork ==> x in t.cumWork && t.cumWork[x] == s.cumWork[x])
    ensures Link(t, k) && Earned(p, t, k)
  {
    hide Validate;
  }

  lemma InsertLinks(p: Params, s: Tree, b: Block, h: Hash, t: Tree)
    requires Inv(p, s) && h !in s.blocks && b.header.prevHash in s.blocks
    requires Validate(p, b, s.blocks[b.header.prevHash], h).None?
    requires var q := b.header.prevHash;
             && t.blocks == s.blocks[h := b.(hash := h)] && t.parent == s.parent[h := q]
             && t.height == s.height[h := b.header.height]
             && t.cumWork == s.cumWork[h := s.cumWork[q] + Pow.WorkForDifficulty(p.difficulty)]
    ensures Link(t, h) && Earned(p, t, h)
  {
    hide Validate;
    HeaderHeight(p, s, b.header.prevHash);
    ValidatedHeader(p, b, s.blocks[b.header.prevHash], h);
  }

  /** What validation fixes in a block's header; it does not look at the hash field. */
  lemma ValidatedHeader(p: Params, b: Block, parent: Block, h: Hash)
    requires Validate(p, b, parent, h).None?
    ensures b.header.difficulty == p.difficulty && b.header.height == parent.header.height + 1
    ensures b.header.prevHash == parent.hash && p.crypto.hashHeader(b.header, b.nonce) == h
    ensures Validate(p, b.(hash := h), parent, h).None?
  {}

  lemma HeaderHeight(p: Params, s: Tree, h: Hash)
    requires Inv(p, s) && h in s.blocks
    ensures s.blocks[h].header.height == s.height[h] && s.blocks[h].hash == h && h != p.crypto.zero
  {
    if h != s.genesis {
      assert Link(s, h) && Earned(p, s, h);
    }
  }

  lemma HeldHashRight(p: Params, t: Tree, h: Hash)
    requires Inv(p, t) && h in t.blocks
    ensures HashRight(p, t.blocks[h])
  {
    HeaderHeight(p, t, h);
    if h != t.genesis {
      assert Earned(p, t, h);
      ValidatedHeader(p, t.blocks[h], t.blocks[t.parent[h]], h);
    }
  }

  /** What submitting one block does, adoption of waiting orphans aside. */
  ghost function Connect(p: Params, s: Tree, b: Block): (r: Outcome)
    requires Inv(p, s)
    ensures Inv(p, r.tree) && Extends(s, r.tree)
  {
    var h := BlockHash(p.crypto, b);
    var idle := AddResult(false, false, s.tip, s.tip, None);
    if b.header.height == 0 && h != s.genesis then Outcome(s, idle, Some(UnexpectedGenesis))
    else if h in s.blocks then Outcome(s, idle, None)
    else if b.header.prevHash !in s.blocks then
      ParkKeepsInv(p, s, b);
      Outcome(s.(orphans := s.orphans[h := b]), idle, None)
    else
      var verdict := Validate(p, b, s.blocks[b.header.prevHash], h);
      if verdict.Some? then Outcome(s, idle, verdict)
      else
        var t := Insert(p, s, b, h);
        Outcome(t,
                if t.tip == s.tip then AddResult(true, false, s.tip, s.tip, None)
                else AddResult(true, true, s.tip, h, ReorgOf(t, s.tip, h)),
                None)
  }

  lemma ParkKeepsInv(p: Params, s: Tree, b: Block)
    requires Inv(p, s) && b.header.height > 0
    ensures var t := s.(orphans := s.orphans[BlockHash(p.crypto, b) := b]); Inv(p, t) && Extends(s, t)
  {
    var t := s.(orphans := s.orphans[BlockHash(p.crypto, b) := b]);
    forall k | k in t.blocks && k != t.genesis ensures Link(t, k) && Earned(p, t, k) {
      assert Link(s, k) && Earned(p, s, k);
    }
    forall k ensures OrphanOk(p, t, k) {
      assert OrphanOk(p, s, k);
    }
  }

  /** The tree a node starts from. */
  ghost function Fresh(p: Params, g: Block): Tree
  {
    var root := g.header.(txRoot := Pow.HashTransactions(p.crypto, g.txs));
    var h := p.crypto.hashHeader(root, g.nonce);
    var b := Block(root, g.nonce, h, g.txs);
    Tree(map[h := b], map[h := p.crypto.zero], map[h := 0], map[h := 0], h, h, map[])
  }

  lemma FreshInv(p: Params, g: Block)
    requires p.crypto.Valid() && g.header.height == 0
    ensures Inv(p, Fresh(p, g)) && Quiescent(Fresh(p, g))
    ensures Fresh(p, g).tip != p.crypto.zero
  {
    var s := Fresh(p, g);
    forall k ensures OrphanOk(p, s, k) {}
  }
}
