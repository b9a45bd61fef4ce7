/** Exactly which sets of blocks can be delivered in any order. The converse is by construction: for every
    other set there are two runs over it that end with different blocks. */
module Order {
  import opened Types
  import opened Tree
  import opened Orphans
  import opened Confluence
  import Pow

  /** A run from a fresh node that delivers exactly `d`, in some order, with some repeats. */
  ghost predicate Delivers(p: Params, g: Block, d: set<Block>, bs: seq<Block>, t: Tree) {
    Delivered(p, bs) == d && Run(p, Fresh(p, g), bs, t)
  }

  ghost predicate OrderIndependent(p: Params, g: Block, d: set<Block>) {
    forall bs1, t1, bs2, t2 | Delivers(p, g, d, bs1, t1) && Delivers(p, g, d, bs2, t2) :: t1.blocks == t2.blocks
  }

  /** Where a hash identifies a delivered block, delivery order is irrelevant. */
  lemma IdentifiedIsOrderIndependent(p: Params, g: Block, d: set<Block>)
    requires p.crypto.Valid() && g.header.height == 0 && Deliverable(p, d) && Identified(d, Root(p, g).hash)
    ensures OrderIndependent(p, g, d)
  {
    hide OrderIndependent, Root, OrderSafe, Identified;
    IdentifiedIsSafe(p, Root(p, g), d);
    OrderIndependentIffSafe(p, g, d);
  }

  /** All runs over a set of deliveries end with the same blocks if and only if the set is order-safe. */
  lemma OrderIndependentIffSafe(p: Params, g: Block, d: set<Block>)
    requires p.crypto.Valid() && g.header.height == 0 && Deliverable(p, d)
    ensures OrderIndependent(p, g, d) <==> OrderSafe(p, Root(p, g), d)
  {
    hide Acceptable, Root;
    if OrderSafe(p, Root(p, g), d) {
      forall bs1, t1, bs2, t2 | Delivers(p, g, d, bs1, t1) && Delivers(p, g, d, bs2, t2)
        ensures t1.blocks == t2.blocks
      {
        RunHoldsExactlyAcceptable(p, g, bs1, t1);
        RunHoldsExactlyAcceptable(p, g, bs2, t2);
        SameHeldSameBlocks(t1, t2);
      }
    } else {
      var b, c :| b in d && c in d && b != c && b.hash == c.hash && Acceptable(p, Root(p, g), d, b)
        && (Acceptable(p, Root(p, g), d, c)
            || !(b.header.prevHash == Root(p, g).hash || c.header.prevHash == Root(p, g).hash));
      var bs1, t1 := DeliverAcceptableFirst(p, g, d, b);
      var bs2, t2;
      if Acceptable(p, Root(p, g), d, c) {
        bs2, t2 := DeliverAcceptableFirst(p, g, d, c);
      } else {
        bs2, t2 := OverwrittenOrphanIsLost(p, g, d, b, c);
      }
      assert Delivers(p, g, d, bs1, t1) && Delivers(p, g, d, bs2, t2);
    }
  }

  // ---------- building runs ----------

  lemma Listed(d: set<Block>) returns (bs: seq<Block>)
    ensures forall b :: b in bs <==> b in d
  {
    if d == {} {
      bs := [];
    } else {
      var x :| x in d;
      var rest := Listed(d - {x});
      bs := rest + [x];
    }
  }

  lemma {:induction false} RunThenRun(p: Params, s: Tree, xs: seq<Block>, m: Tree, ys: seq<Block>, t: Tree)
    requires Run(p, s, xs, m) && Run(p, m, ys, t)
    ensures Run(p, s, xs + ys, t)
    decreases |ys|
  {
    hide AddStep;
    if ys == [] {
      assert xs + ys == xs;
    } else {
      var before, last := ys[..|ys| - 1], ys[|ys| - 1];
      var n: Tree :| Run(p, m, before, n) && AddStep(p, n, last, t);
      RunThenRun(p, s, xs, m, before, n);
      RunSnoc(p, s, xs + before, n, last, t);
      assert xs + ys == (xs + before) + [last];
    }
  }

  /** `t` holds exactly the blocks of `path`, and nothing waits. */
  ghost predicate JustPath(p: Params, path: seq<Block>, t: Tree) {
    && Inv(p, t) && t.orphans == map[] && path != [] && t.genesis == path[0].hash
    && (forall i | 0 <= i < |path| :: Holds(t, path[i]))
    && (forall h | h in t.blocks :: t.blocks[h] in path)
  }

  /** Delivering a supported path oldest first files all of it. */
  lemma {:induction false} DeliverPath(p: Params, g: Block, d: set<Block>, path: seq<Block>) returns (t: Tree)
    requires p.crypto.Valid() && g.header.height == 0 && Deliverable(p, d) && Supported(p, Root(p, g), d, path)
    ensures Run(p, Fresh(p, g), path[1..], t) && JustPath(p, path, t)
    decreases |path|
  {
    hide Inv, Run, Validate, Supported, JustPath, Fresh, Root;
    SupportedEnd(p, Root(p, g), d, path);
    if |path| == 1 {
      t := Fresh(p, g);
      FreshIsPath(p, g);
      RunNothing(p, t);
      assert path[1..] == [];
    } else {
      var before, b := path[..|path| - 1], path[|path| - 1];
      SupportedPrefix(p, Root(p, g), d, path);
      var m := DeliverPath(p, g, d, before);
      t := FileNext(p, before, m, b);
      RunSnoc(p, Fresh(p, g), before[1..], m, b, t);
      assert path[1..] == before[1..] + [b];
    }
  }

  lemma FreshIsPath(p: Params, g: Block)
    requires p.crypto.Valid() && g.header.height == 0
    ensures JustPath(p, [Root(p, g)], Fresh(p, g))
  {
    FreshInv(p, g);
  }

  lemma FileNext(p: Params, path: seq<Block>, m: Tree, b: Block) returns (t: Tree)
    requires JustPath(p, path, m) && Filed(p, b) == b && b.header.height > 0
    requires Validate(p, b, path[|path| - 1], b.hash).None? && forall i | 0 <= i < |path| :: path[i].hash != b.hash
    ensures AddStep(p, m, b, t) && JustPath(p, path + [b], t)
  {
    hide Inv, Validate;
    var q := path[|path| - 1];
    assert Holds(m, q);
    ValidatedHeader(p, b, q, b.hash);
    forall h | h in m.blocks ensures h != b.hash {
      FiledUnderHash(p, m, h);
    }
    FilesAsIs(p, m, b);
    t := Connect(p, m, b).tree;
    assert Adopts(p, t, t, 0);
    ConnectMaps(p, m, b);
  }

  lemma FilesAsIs(p: Params, m: Tree, b: Block)
    requires Inv(p, m) && Filed(p, b) == b && b.header.height > 0 && b.hash !in m.blocks
    requires b.header.prevHash in m.blocks && Validate(p, b, m.blocks[b.header.prevHash], b.hash).None?
    ensures Connect(p, m, b).res.added && Connect(p, m, b).err.None?
  {}

  lemma DeliveredList(p: Params, d: set<Block>, bs: seq<Block>)
    requires Deliverable(p, d) && forall b | b in bs :: b in d
    ensures Delivered(p, bs) == set b | b in bs
  {}

  /** Delivering an acceptable block's path first makes the node hold that block, whatever follows. */
  lemma DeliverAcceptableFirst(p: Params, g: Block, d: set<Block>, b: Block) returns (bs: seq<Block>, t: Tree)
    requires p.crypto.Valid() && g.header.height == 0 && Deliverable(p, d) && Acceptable(p, Root(p, g), d, b)
    ensures Delivers(p, g, d, bs, t) && Holds(t, b)
  {
    hide Inv, Run, Quiescent, Supported, JustPath, Fresh, Root, Deliverable, Delivered, Extends;
    var path := PathTo(p, Root(p, g), d, b);
    SupportedEnd(p, Root(p, g), d, path);
    var m := DeliverPath(p, g, d, path);
    PathHeld(p, path, m);
    var rest := Listed(d);
    t := RunCompletes(p, m, rest);
    RunKeepsInv(p, m, rest, t);
    RunThenRun(p, Fresh(p, g), path[1..], m, rest, t);
    bs := path[1..] + rest;
    DeliveredList(p, d, bs);
    assert d == set x | x in bs;
    StillHeld(m, t, b);
  }

  lemma PathHeld(p: Params, path: seq<Block>, m: Tree)
    requires JustPath(p, path, m)
    ensures Inv(p, m) && Quiescent(m) && Holds(m, path[|path| - 1])
  {}

  lemma StillHeld(m: Tree, t: Tree, b: Block)
    requires Extends(m, t) && Holds(m, b)
    ensures Holds(t, b)
  {}

  lemma NothingWaits(m: Tree)
    requires m.orphans == map[]
    ensures Quiescent(m)
  {}

  lemma {:induction false} AdoptsSourced(p: Params, d: set<Block>, s: Tree, t: Tree, n: nat)
    requires Inv(p, s) && Sourced(p, d, s) && Adopts(p, s, t, n)
    ensures Inv(p, t) && Sourced(p, d, t)
    decreases n
  {
    hide Inv, Adopt, Sourced;
    if n > 0 {
      var m: Tree :| Adopts(p, s, m, n - 1) && AdoptStep(p, m, t);
      AdoptsSourced(p, d, s, m, n - 1);
      var oh :| Adoptable(m, oh) && t == Adopt(p, m, oh).tree;
      AdoptSourced(p, d, m, oh);
    }
  }

  /** Only delivered blocks are ever held. */
  lemma {:induction false} RunSourced(p: Params, d: set<Block>, s: Tree, bs: seq<Block>, t: Tree)
    requires Inv(p, s) && Quiescent(s) && Sourced(p, d, s) && Run(p, s, bs, t)
    ensures Inv(p, t) && Quiescent(t) && t.genesis == s.genesis && Sourced(p, d + Delivered(p, bs), t)
    decreases |bs|
  {
    hide Inv, Quiescent, Sourced, Connect, Adopts;
    if bs == [] {
      assert d + Delivered(p, bs) == d;
    } else {
      var before, last := bs[..|bs| - 1], bs[|bs| - 1];
      var m: Tree :| Run(p, s, before, m) && AddStep(p, m, last, t);
      RunSourced(p, d, s, before, m);
      AddStepKeepsInv(p, m, last, t);
      DeliveredSplits(p, bs);
      assert d + Delivered(p, bs) == d + Delivered(p, before) + Delivered(p, [last]);
      var r := Connect(p, m, last);
      ConnectSourced(p, d + Delivered(p, before), m, last);
      if r.err.None? {
        var n: nat :| Adopts(p, r.tree, t, n);
        AdoptsSourced(p, d + Delivered(p, bs), r.tree, t, n);
      } else {
        ConnectErrorKeepsTree(p, m, last);
      }
    }
  }

  // ---------- a waiting block overwritten ----------

  /** A submitted block whose parent is unknown only replaces whatever waits under its hash. */
  lemma ParkStep(p: Params, s: Tree, b: Block) returns (t: Tree)
    requires Inv(p, s) && Quiescent(s)
    requires b.header.height > 0 && BlockHash(p.crypto, b) !in s.blocks && b.header.prevHash !in s.blocks
    ensures AddStep(p, s, b, t) && t == s.(orphans := s.orphans[BlockHash(p.crypto, b) := b]) && Inv(p, t)
            && Quiescent(t)
  {
    t := Connect(p, s, b).tree;
    assert Adopts(p, t, t, 0);
  }

  /** Waiting orphans are not validated, so a block that merely carries a waiting block's hash replaces it.
      At any depth: let `c` share the hash of an acceptable block `b`, neither a child of genesis. Delivering
      b, then c, then everything but b leaves the node without b. */
  lemma OverwrittenOrphanIsLost(p: Params, g: Block, d: set<Block>, b: Block, c: Block)
    returns (bs: seq<Block>, t: Tree)
    requires p.crypto.Valid() && g.header.height == 0 && Deliverable(p, d)
    requires b in d && c in d && b != c && b.hash == c.hash && Acceptable(p, Root(p, g), d, b)
    requires b.header.prevHash != Root(p, g).hash && c.header.prevHash != Root(p, g).hash
    ensures Delivers(p, g, d, bs, t) && !Holds(t, b)
  {
    hide Inv, Run, Quiescent, AddStep, Acceptable, Connect;
    var s := Fresh(p, g);
    FreshInv(p, g);
    FreshIsRoot(p, g);
    var _ := AcceptableParent(p, Root(p, g), d, b);
    var m := ParkStep(p, s, b);
    var n := ParkStep(p, m, c);
    RunNothing(p, s);
    RunSnoc(p, s, [], s, b, m);
    RunSnoc(p, s, [] + [b], m, c, n);
    var rest := Listed(d - {b});
    t := RunCompletes(p, n, rest);
    RunThenRun(p, s, [] + [b] + [c], n, rest, t);
    bs := [] + [b] + [c] + rest;
    DeliveredList(p, d, bs);
    DeliveredList(p, d - {b}, rest);
    assert forall x | x in d :: x in bs;
    assert n.orphans == map[c.hash := c];
    RunSourced(p, d - {b}, n, rest, t);
    assert (d - {b}) + Delivered(p, rest) == d - {b};
  }

  lemma FreshIsRoot(p: Params, g: Block)
    requires p.crypto.Valid() && g.header.height == 0
    ensures var s := Fresh(p, g);
            s.genesis == Root(p, g).hash && s.blocks == map[s.genesis := Root(p, g)] && s.orphans == map[]
            && Root(p, g).header.height == 0
  {}

  // ---------- transactions the header does not commit to ----------

  /** The header commits only to transaction IDs. So next to any acceptable block with a transaction there is
      another under the same hash and just as acceptable, and whichever is delivered first is kept. */
  lemma TwinsAreOrderDependent(p: Params, g: Block, d: set<Block>, b: Block, txs: seq<Tx>)
    requires p.crypto.Valid() && g.header.height == 0 && Deliverable(p, d)
    requires b in d && Acceptable(p, Root(p, g), d, b) && txs != b.txs && Pow.SameIds(b.txs, txs)
    ensures var e := d + {b.(txs := txs)};
            Deliverable(p, e) && Acceptable(p, Root(p, g), e, b.(txs := txs)) && !OrderIndependent(p, g, e)
  {
    hide OrderIndependent, Root, OrderSafe, Acceptable;
    var twin := b.(txs := txs);
    var e := d + {twin};
    FreshIsRoot(p, g);
    TwinAcceptable(p, Root(p, g), d, b, txs);
    AcceptableGrows(p, Root(p, g), d, e, b);
    BothAcceptable(p, Root(p, g), e, b, twin);
    OrderIndependentIffSafe(p, g, e);
  }

  lemma TwinAcceptable(p: Params, g: Block, d: set<Block>, b: Block, txs: seq<Tx>)
    requires b.header.height > 0 && g.header.height == 0 && Acceptable(p, g, d, b) && Pow.SameIds(b.txs, txs)
    ensures Acceptable(p, g, d + {b.(txs := txs)}, b.(txs := txs))
  {
    hide Validate, Supported;
    var twin := b.(txs := txs);
    var path := PathTo(p, g, d, b);
    SupportedEnd(p, g, d, path);
    SupportedPrefix(p, g, d, path);
    var before := path[..|path| - 1];
    TwinValid(p, b, txs, before[|before| - 1]);
    SupportedSnoc(p, g, d, before, twin);
    EndsPath(p, g, d + {twin}, before + [twin]);
  }

  lemma SupportedSnoc(p: Params, g: Block, d: set<Block>, path: seq<Block>, b: Block)
    requires Supported(p, g, d, path) && Validate(p, b, path[|path| - 1], b.hash).None?
    requires forall i | 0 <= i < |path| :: path[i].hash != b.hash
    ensures Supported(p, g, d + {b}, path + [b])
  {
    hide Validate;
    var all := path + [b];
    forall i {:trigger all[i]} | 0 < i < |all|
      ensures all[i] in d + {b} && Validate(p, all[i], all[i - 1], all[i].hash).None?
    {
      assert i < |path| ==> all[i] == path[i];
      assert all[i - 1] == path[i - 1];
    }
  }

  lemma TwinValid(p: Params, b: Block, txs: seq<Tx>, q: Block)
    requires Pow.SameIds(b.txs, txs)
    ensures Validate(p, b.(txs := txs), q, b.hash) == Validate(p, b, q, b.hash)
  {
    Pow.SameIdsJoinAlike(b.txs, txs);
  }

  lemma BothAcceptable(p: Params, g: Block, d: set<Block>, b: Block, c: Block)
    requires b in d && c in d && b != c && b.hash == c.hash && Acceptable(p, g, d, b) && Acceptable(p, g, d, c)
    ensures !OrderSafe(p, g, d)
  {}

  // ---------- instances ----------

  /** Digests for an instance: different from each other and from the zero digest. */
  ghost predicate Apart(zero: Hash, hs: seq<Hash>) {
    zero !in hs && forall i, j | 0 <= i < j < |hs| :: hs[i] != hs[j]
  }

  /** A crypto under which a header with nonce n hashes to `hs[n]`, and every digest meets difficulty 0. */
  function ToyCrypto(zero: Hash, hs: seq<Hash>): Crypto
    requires hs != []
  {
    Crypto(zero, _ => seq(32, _ => 0), _ => zero, (hd: Header, n: nat) => if n < |hs| then hs[n] else hs[0])
  }

  lemma ToyCryptoValid(zero: Hash, hs: seq<Hash>)
    requires hs != [] && zero !in hs
    ensures ToyCrypto(zero, hs).Valid()
  {
    var c := ToyCrypto(zero, hs);
    forall hd: Header, n: nat ensures c.hashHeader(hd, n) != zero {
      assert c.hashHeader(hd, n) in hs;
    }
  }

  /** Overwriting happens: given three distinct digests there are blocks meeting the hypotheses above, and
      two runs over the same three blocks, one holding `x` and one not. */
  lemma OverwrittenOrphanInstance(zero: Hash, hs: seq<Hash>)
    returns (p: Params, g: Block, q: Block, x: Block, y: Block, bs1: seq<Block>, t1: Tree, bs2: seq<Block>, t2: Tree)
    requires |hs| == 3 && Apart(zero, hs)
    ensures p.crypto.Valid() && g.header.height == 0 && Identified({q, x}, Root(p, g).hash) && y.hash == x.hash
    ensures Delivers(p, g, {q, x, y}, bs1, t1) && Holds(t1, x)
    ensures Delivers(p, g, {q, x, y}, bs2, t2) && !Holds(t2, x)
  {
    hide Run, Delivered, Inv, Acceptable;
    p := Params(ToyCrypto(zero, hs), 0);
    ToyCryptoValid(zero, hs);
    g := Block(Header(0, zero, 0, 0, "genesis", zero), 0, zero, []);
    q := Block(Header(1, hs[0], 1, 0, "a", zero), 1, hs[1], []);
    x := Block(Header(2, hs[1], 2, 0, "a", zero), 2, hs[2], []);
    y := Block(Header(2, hs[1], 2, 0, "b", zero), 1, hs[2], []);
    var d := {q, x, y};
    assert Supported(p, Root(p, g), d, [Root(p, g), q, x]);
    assert Acceptable(p, Root(p, g), d, x) by { EndsPath(p, Root(p, g), d, [Root(p, g), q, x]); }
    bs1, t1 := DeliverAcceptableFirst(p, g, d, x);
    bs2, t2 := OverwrittenOrphanIsLost(p, g, d, x, y);
  }

  lemma EndsPath(p: Params, g: Block, d: set<Block>, path: seq<Block>)
    requires Supported(p, g, d, path)
    ensures Acceptable(p, g, d, path[|path| - 1])
  {}

  /** No forged hash is needed: two valid blocks that differ only in a payload, delivered in either order,
      end in different trees. */
  lemma PayloadTwinsInstance(zero: Hash, hs: seq<Hash>)
    returns (p: Params, g: Block, a: Block, b: Block, t1: Tree, t2: Tree)
    requires |hs| == 2 && Apart(zero, hs)
    ensures p.crypto.Valid() && g.header.height == 0
    ensures Validate(p, a, Root(p, g), a.hash).None? && Validate(p, b, Root(p, g), b.hash).None?
    ensures Run(p, Fresh(p, g), [a, b], t1) && Run(p, Fresh(p, g), [b, a], t2)
    ensures Holds(t1, a) && Holds(t2, b) && t1.blocks != t2.blocks
  {
    hide Run, Inv;
    p := Params(ToyCrypto(zero, hs), 0);
    ToyCryptoValid(zero, hs);
    g := Block(Header(0, zero, 0, 0, "genesis", zero), 0, zero, []);
    a := Block(Header(1, hs[0], 1, 0, "m", zero), 1, hs[1], [Tx("t", 0, "pay alice")]);
    b := Block(Header(1, hs[0], 1, 0, "m", zero), 1, hs[1], [Tx("t", 0, "pay bob")]);
    t1 := FirstIsKept(p, g, a, b);
    t2 := FirstIsKept(p, g, b, a);
    assert a.txs[0].payload[4] != b.txs[0].payload[4];
  }

  lemma FirstIsKept(p: Params, g: Block, a: Block, b: Block) returns (t: Tree)
    requires p.crypto.Valid() && g.header.height == 0 && Deliverable(p, {a}) && a.hash != Root(p, g).hash
    requires Validate(p, a, Root(p, g), a.hash).None?
    ensures Run(p, Fresh(p, g), [a, b], t) && Holds(t, a)
  {
    hide Run, Inv, Validate, Quiescent;
    var path := [Root(p, g), a];
    var m := DeliverPath(p, g, {a}, path);
    assert Holds(m, path[1]);
    NothingWaits(m);
    t := SubmissionCompletes(p, m, b);
    AddStepKeepsInv(p, m, b, t);
    RunSnoc(p, Fresh(p, g), path[1..], m, b, t);
    assert path[1..] + [b] == [a, b];
  }
}
