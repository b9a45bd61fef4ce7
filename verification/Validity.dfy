/** What validation and submission amount to, read off the blocks alone: numbers, timestamps, digests. */
module Validity {
  import opened Types
  import opened Tree
  import opened Orphans
  import Pow

  /** `b` is a genuine child of `q` under the digest `h`: the chain's difficulty, one higher, naming its parent, not
      older, committing to its transactions' IDs, really having that digest, and the digest below the target. */
  ghost predicate Genuine(p: Params, b: Block, q: Block, h: Hash) {
    && b.header.difficulty == p.difficulty
    && b.header.height == q.header.height + 1
    && b.header.prevHash == q.hash
    && q.header.timestamp <= b.header.timestamp
    && p.crypto.sha256(Pow.JoinIds(b.txs)) == b.header.txRoot
    && p.crypto.hashHeader(b.header, b.nonce) == h
    && p.difficulty <= 256 && Pow.BigEndian(p.crypto.bytes(h)) < Pow.Pow2(256 - p.difficulty)
  }

  /** Validation accepts exactly the genuine children. */
  lemma ValidIffGenuine(p: Params, b: Block, q: Block, h: Hash)
    requires p.crypto.Valid()
    ensures Validate(p, b, q, h).None? <==> Genuine(p, b, q, h)
  {
    Pow.MeetsDifficultyIffBelowTarget(p.crypto.bytes(h), p.difficulty);
  }

  /** The requirements, in the order they are checked. */
  ghost function Requirements(p: Params, b: Block, q: Block, h: Hash): seq<bool> {
    [b.header.difficulty == p.difficulty,
     b.header.height == q.header.height + 1,
     b.header.prevHash == q.hash,
     q.header.timestamp <= b.header.timestamp,
     p.crypto.sha256(Pow.JoinIds(b.txs)) == b.header.txRoot,
     p.crypto.hashHeader(b.header, b.nonce) == h,
     p.difficulty <= 256 && Pow.BigEndian(p.crypto.bytes(h)) < Pow.Pow2(256 - p.difficulty)]
  }

  /** What a block that fails them is refused with. */
  function Refusals(): seq<AddError> {
    [DifficultyMismatch, HeightMismatch, PrevHashMismatch, TimestampRegression, TxRootMismatch, HashMismatch,
     PowTooWeak]
  }

  /** A refusal names the first requirement not met. */
  lemma RefusalNamesFirstFailure(p: Params, b: Block, q: Block, h: Hash) returns (k: nat)
    requires p.crypto.Valid() && !Genuine(p, b, q, h)
    ensures k < |Refusals()| == |Requirements(p, b, q, h)| && Validate(p, b, q, h) == Some(Refusals()[k])
    ensures !Requirements(p, b, q, h)[k] && forall j | 0 <= j < k :: Requirements(p, b, q, h)[j]
  {
    Pow.MeetsDifficultyIffBelowTarget(p.crypto.bytes(h), p.difficulty);
    var met := Requirements(p, b, q, h);
    k := if !met[0] then 0 else if !met[1] then 1 else if !met[2] then 2 else if !met[3] then 3
         else if !met[4] then 4 else if !met[5] then 5 else 6;
  }

  /** In every reachable tree each block above genesis is genuine: it has the chain's difficulty, a digest below the
      target, a height one above its parent's, a timestamp not before it, the root of its own transactions, and it
      is held under its true hash. */
  lemma HeldIsGenuine(p: Params, s: Tree, h: Hash)
    requires Inv(p, s) && h in s.blocks && h != s.genesis
    ensures var b := s.blocks[h];
            && b.header.prevHash in s.blocks
            && var q := s.blocks[b.header.prevHash];
               && b.header.difficulty == p.difficulty && p.difficulty <= 256
               && Pow.BigEndian(p.crypto.bytes(h)) < Pow.Pow2(256 - p.difficulty)
               && p.crypto.hashHeader(b.header, b.nonce) == h && b.hash == h
               && b.header.height == q.header.height + 1 && q.header.timestamp <= b.header.timestamp
               && b.header.prevHash == q.hash && p.crypto.sha256(Pow.JoinIds(b.txs)) == b.header.txRoot
  {
    hide Validate;
    assert Link(s, h) && Earned(p, s, h);
    HeaderHeight(p, s, h);
    HeaderHeight(p, s, s.parent[h]);
    ValidIffGenuine(p, s.blocks[h], s.blocks[s.parent[h]], h);
  }

  /** The digest a block is known by: the one it carries, or its true one when it carries none. */
  lemma KnownBy(c: Crypto, b: Block)
    ensures BlockHash(c, b) == if b.hash == c.zero then c.hashHeader(b.header, b.nonce) else b.hash
    ensures b.hash == c.hashHeader(b.header, b.nonce) ==> BlockHash(c, b.(hash := c.zero)) == b.hash
  {}

  /** What one submission does, in every case: an unknown genesis block is refused; a block already held changes
      nothing; a block without a held parent waits under its digest, whatever it holds; any other is filed if and
      only if it is a genuine child of its parent, and otherwise refused without effect. */
  lemma SubmissionOutcome(p: Params, s: Tree, b: Block)
    requires Inv(p, s)
    ensures var r := Connect(p, s, b); var q := b.header.prevHash;
            var h := if b.hash == p.crypto.zero then p.crypto.hashHeader(b.header, b.nonce) else b.hash;
            var stranger, known := b.header.height == 0 && h != s.genesis, h in s.blocks;
            && (r.err == Some(UnexpectedGenesis) <==> stranger)
            && (r.res.added <==> !known && b.header.height > 0 && q in s.blocks && Genuine(p, b, s.blocks[q], h))
            && (r.res.added ==> r.err.None? && h in r.tree.blocks && r.tree.blocks[h] == b.(hash := h))
            && (r.err.Some? <==> stranger || (!known && q in s.blocks && !Genuine(p, b, s.blocks[q], h)))
            && (r.err.Some? && !stranger ==> r.err == Validate(p, b, s.blocks[q], h))
            && (r.tree != s && !r.res.added ==> !stranger && !known && q !in s.blocks)
            && (!stranger && !known && q !in s.blocks ==> r.err.None? && r.tree == s.(orphans := s.orphans[h := b]))
  {
    hide Validate, Genuine, Linked, Extends, ReorgOf, OrphanOk;
    KnownBy(p.crypto, b);
    GenesisHeld(p, s);
    if b.header.prevHash in s.blocks {
      NoStranger(p, b, s.blocks[b.header.prevHash], BlockHash(p.crypto, b));
      ValidIffGenuine(p, b, s.blocks[b.header.prevHash], BlockHash(p.crypto, b));
      if Genuine(p, b, s.blocks[b.header.prevHash], BlockHash(p.crypto, b)) {
        GenuineHigher(p, b, s.blocks[b.header.prevHash], BlockHash(p.crypto, b));
      }
    }
  }

  lemma NoStranger(p: Params, b: Block, q: Block, h: Hash)
    ensures Validate(p, b, q, h) != Some(UnexpectedGenesis)
  {}

  lemma GenesisHeld(p: Params, s: Tree)
    requires Inv(p, s)
    ensures s.genesis in s.blocks && Linked(s)
  {}

  lemma GenuineHigher(p: Params, b: Block, q: Block, h: Hash)
    requires Genuine(p, b, q, h)
    ensures b.header.height > 0
  {}
}
