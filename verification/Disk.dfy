/** The data directory: block files by height and a manifest. Every write or delete is one
    atomic operation, so a crash leaves the directory after some prefix of the operations. */
module Disk {
  import opened Types
  import opened Tree

  datatype Manifest = Manifest(difficulty: nat, tipHeight: nat, tipHash: Hash)

  datatype Disk = Disk(files: map<nat, Block>, manifest: Option<Manifest>)

  datatype DiskOp = PutBlock(block: Block) | Remove(height: nat) | PutManifest(m: Manifest)

  function Apply(d: Disk, op: DiskOp): Disk {
    match op
    case PutBlock(b) => d.(files := d.files[b.header.height := b])
    case Remove(h) => d.(files := d.files - {h})
    case PutManifest(m) => d.(manifest := Some(m))
  }

  function ApplyAll(d: Disk, ops: seq<DiskOp>): Disk
  {
    if ops == [] then d else Apply(ApplyAll(d, ops[..|ops| - 1]), ops[|ops| - 1])
  }

  lemma {:induction false} ApplyAllConcat(d: Disk, xs: seq<DiskOp>, ys: seq<DiskOp>)
    ensures ApplyAll(d, xs + ys) == ApplyAll(ApplyAll(d, xs), ys)
    decreases |ys|
  {
    if ys == [] {
      assert xs + ys == xs;
    } else {
      ApplyAllConcat(d, xs, ys[..|ys| - 1]);
      assert (xs + ys)[..|xs + ys| - 1] == xs + ys[..|ys| - 1];
    }
  }

  lemma ApplySnoc(d: Disk, ops: seq<DiskOp>, op: DiskOp)
    ensures ApplyAll(d, ops + [op]) == Apply(ApplyAll(d, ops), op)
  {
    assert (ops + [op])[..|ops + [op]| - 1] == ops;
  }

  lemma ApplyTwo(d: Disk, x: DiskOp, y: DiskOp)
    ensures ApplyAll(d, [x, y]) == Apply(Apply(d, x), y)
  {
    ApplySnoc(d, [], x);
    ApplySnoc(d, [x], y);
    assert [] + [x] == [x] && [x] + [y] == [x, y];
  }

  // ---------- loading ----------

  /** The files from height `k` up to `top`, cut at the first missing one. */
  function LoadFrom(files: map<nat, Block>, k: nat, top: nat): (bs: seq<Block>)
    decreases top + 1 - k
  {
    if k > top || k !in files then [] else [files[k]] + LoadFrom(files, k + 1, top)
  }

  function Load(d: Disk): seq<Block> {
    match d.manifest
    case None => []
    case Some(m) => LoadFrom(d.files, 0, m.tipHeight)
  }

  ghost predicate HoldsFrom(files: map<nat, Block>, k: nat, bs: seq<Block>) {
    forall h | k <= h < k + |bs| :: h in files && files[h] == bs[h - k]
  }

  /** Loading returns `bs` when the files hold `bs` and then stop, at the top or at a gap. */
  lemma {:induction false} LoadFromIs(files: map<nat, Block>, k: nat, top: nat, bs: seq<Block>)
    requires HoldsFrom(files, k, bs) && k + |bs| <= top + 1
    requires k + |bs| == top + 1 || k + |bs| !in files
    ensures LoadFrom(files, k, top) == bs
    decreases |bs|
  {
    if bs != [] {
      assert k in files;
      LoadFromIs(files, k + 1, top, bs[1..]);
    }
  }

  /** What loading returns, file by file: all from height `k` up to the top, or to just below the first missing one. */
  lemma {:induction false} LoadFromMeans(files: map<nat, Block>, k: nat, top: nat)
    requires k <= top + 1
    ensures var n := |LoadFrom(files, k, top)|;
            && k + n <= top + 1 && (k + n <= top ==> k + n !in files)
            && forall h | k <= h < k + n :: h in files && LoadFrom(files, k, top)[h - k] == files[h]
    decreases top + 1 - k
  {
    if k <= top && k in files {
      LoadFromMeans(files, k + 1, top);
    }
  }

  // ---------- operations of one tip change ----------

  /** Deletes from height `from` down to just above `to`. */
  function Removes(from: nat, to: nat): seq<DiskOp> {
    if from <= to then [] else seq(from - to, i => Remove(if i <= from then from - i else 0))
  }

  function Puts(p: Params, bs: seq<Block>): seq<DiskOp> {
    seq(|bs|, i requires 0 <= i < |bs| => PutBlock(Filed(p, bs[i])))
  }

  /** The in-memory manifest after rolling back to `height`. */
  function RolledBack(m: Manifest, files: map<nat, Block>, height: nat): Manifest {
    m.(tipHeight := height, tipHash := if height in files then files[height].hash else m.tipHash)
  }

  function Advanced(m: Manifest, bs: seq<Block>): Manifest {
    if bs == [] then m
    else m.(tipHeight := bs[|bs| - 1].header.height, tipHash := bs[|bs| - 1].hash)
  }

  /** What a rollback to height `a` leaves on disk. */
  function Kept(m: Manifest, files: map<nat, Block>, a: nat): map<nat, Block> {
    files - (set h | h in files && a < h <= m.tipHeight)
  }

  /** The manifest after switching to the segment `added` above height `a`. */
  function Switched(m: Manifest, files: map<nat, Block>, a: nat, added: seq<Block>): Manifest {
    Advanced(RolledBack(m, Kept(m, files, a), a), added)
  }

  function SwitchOps(p: Params, m: Manifest, files: map<nat, Block>, a: nat, added: seq<Block>): seq<DiskOp> {
    Removes(m.tipHeight, a) + Puts(p, added) + [PutManifest(Switched(m, files, a, added))]
  }

  datatype Change = Change(ops: seq<DiskOp>, manifest: Manifest, ok: bool)

  /** What persisting one tip change writes, and the in-memory manifest it leaves. */
  function TipChange(p: Params, m: Manifest, files: map<nat, Block>,
                     blocks: map<Hash, Block>, tipHash: Hash, reorg: Option<Reorg>): Change
  {
    match reorg
    case None =>
      if tipHash !in blocks || blocks[tipHash].header.height <= m.tipHeight then Change([], m, true)
      else
        var b := blocks[tipHash];
        var now := m.(tipHeight := b.header.height, tipHash := tipHash);
        Change([PutBlock(Filed(p, b)), PutManifest(now)], now, true)
    case Some(r) =>
      if r.commonAncestor !in blocks then Change([], m, false)
      else
        var a := blocks[r.commonAncestor].header.height;
        Change(SwitchOps(p, m, files, a, r.added), Switched(m, files, a, r.added), true)
  }
}
