/** The store: keeps the data directory and an in-memory manifest, updated step by step. */
module Store {
  import opened Types
  import opened Tree
  import opened Disk
  import opened Chain
  import Pow

  datatype StoreError = DifficultyMismatch | NoGenesisFile | MissingAncestor

  class Store {
    const p: Params
    var files: map<nat, Block>
    var onDisk: Option<Manifest>
    var manifest: Manifest
    ghost var log: seq<DiskOp>  // every disk operation issued, in order

    ghost function Directory(): Disk
      reads this
    {
      Disk(files, onDisk)
    }

    constructor (params: Params, dir: Disk, genesis: Block)
      ensures p == params && Directory() == ApplyAll(dir, log)
      ensures dir.manifest.Some? ==> log == [] && manifest == dir.manifest.value
      ensures dir.manifest.None? ==>
                var s := Fresh(params, genesis); var m := Manifest(params.difficulty, 0, s.genesis);
                manifest == m && log == [PutBlock(Filed(params, s.blocks[s.genesis])), PutManifest(m)]
    {
      p := params;
      files := dir.files;
      onDisk := dir.manifest;
      manifest := if dir.manifest.Some? then dir.manifest.value else Manifest(params.difficulty, 0, genesis.hash);
      log := [];
      new;
      if dir.manifest.None? {
        InitNew(genesis);
      }
    }

    /** Opening fails exactly on a directory made with another difficulty. */
    static method Open(params: Params, dir: Disk, genesis: Block) returns (st: Store?, err: Option<StoreError>)
      ensures err.Some? <==> dir.manifest.Some? && dir.manifest.value.difficulty != params.difficulty
      ensures st != null <==> err.None?
      ensures st != null ==> fresh(st) && st.p == params && st.Directory() == ApplyAll(dir, st.log)
      ensures st != null && dir.manifest.Some? ==> st.log == [] && st.manifest == dir.manifest.value
      ensures st != null && dir.manifest.None? ==>
                var s := Fresh(params, genesis); var m := Manifest(params.difficulty, 0, s.genesis);
                st.manifest == m && st.log == [PutBlock(Filed(params, s.blocks[s.genesis])), PutManifest(m)]
    {
      if dir.manifest.Some? && dir.manifest.value.difficulty != params.difficulty {
        return null, Some(StoreError.DifficultyMismatch);
      }
      st := new Store(params, dir, genesis);
      err := None;
    }

    method InitNew(genesis: Block)
      modifies this
      ensures var s := Fresh(p, genesis); var m := Manifest(p.difficulty, 0, s.genesis);
              var ops := [PutBlock(Filed(p, s.blocks[s.genesis])), PutManifest(m)];
              && log == old(log) + ops && manifest == m
              && Directory() == ApplyAll(old(Directory()), ops)
    {
      var header := genesis.header.(txRoot := Pow.HashTransactions(p.crypto, genesis.txs));
      var h := p.crypto.hashHeader(header, genesis.nonce);
      ghost var d, before := Directory(), log;
      var g := Block(header, genesis.nonce, h, genesis.txs);
      WriteBlockFile(g);
      manifest := Manifest(p.difficulty, 0, h);
      SaveManifest();
      ApplyTwo(d, PutBlock(Filed(p, g)), PutManifest(manifest));
      assert log == before + [PutBlock(Filed(p, g)), PutManifest(manifest)];
    }

    method WriteBlockFile(b: Block)
      modifies this`files, this`log
      ensures log == old(log) + [PutBlock(Filed(p, b))]
      ensures Directory() == Apply(old(Directory()), PutBlock(Filed(p, b)))
      ensures files == old(files)[b.header.height := b.(hash :=
                  if b.hash == p.crypto.zero then p.crypto.hashHeader(b.header, b.nonce) else b.hash)]
    {
      files := files[b.header.height := Filed(p, b)];
      log := log + [PutBlock(Filed(p, b))];
    }

    method RemoveFile(height: nat)
      modifies this`files, this`log
      ensures log == old(log) + [Remove(height)]
      ensures Directory() == Apply(old(Directory()), Remove(height))
    {
      files := files - {height};
      log := log + [Remove(height)];
    }

    method SaveManifest()
      modifies this`onDisk, this`log
      ensures log == old(log) + [PutManifest(manifest)]
      ensures Directory() == Apply(old(Directory()), PutManifest(manifest))
    {
      onDisk := Some(manifest);
      log := log + [PutManifest(manifest)];
    }

    /** Read the files from height 0 up; at a gap, cut the chain there and repair the manifest. */
    method LoadMainChain() returns (out: seq<Block>, err: Option<StoreError>)
      requires onDisk == Some(manifest)
      modifies this
      ensures err.Some? <==> 0 !in files
      ensures files == old(files)
      ensures err.None? ==> out == Load(old(Directory())) && out != []
      ensures err.None? ==> manifest == Repaired(old(manifest), out) && onDisk == Some(manifest)
      ensures err.Some? ==> manifest == old(manifest) && onDisk == old(onDisk)
    {
      out := [];
      err := None;
      var h := 0;
      ghost var top := manifest.tipHeight;
      while h <= manifest.tipHeight
        invariant h == |out| <= top + 1 && (h > 0 ==> 0 in files)
        invariant out + LoadFrom(files, h, top) == LoadFrom(files, 0, top)
        invariant files == old(files) && manifest == old(manifest) && onDisk == old(onDisk)
      {
        if h !in files {
          if h == 0 {
            return [], Some(NoGenesisFile);
          }
          manifest := manifest.(tipHeight := h - 1, tipHash := out[|out| - 1].hash);
          SaveManifest();
          return;
        }
        out := out + [files[h]];
        h := h + 1;
      }
    }

    /** Persist a tip change: append one block, or roll back to the ancestor and append the new segment. */
    method ApplyTipChange(chain: Blockchain, tipHash: Hash, reorg: Option<Reorg>) returns (err: Option<StoreError>)
      modifies this
      ensures var c := TipChange(p, old(manifest), old(files), chain.blocks, tipHash, reorg);
              && log == old(log) + c.ops
              && Directory() == ApplyAll(old(Directory()), c.ops)
              && manifest == c.manifest
              && (err.None? <==> c.ok)
      // an extension at or below the manifest's height is ignored; only a switch from an unknown ancestor fails
      ensures err.Some? <==> reorg.Some? && reorg.value.commonAncestor !in chain.blocks
      ensures err.Some? ==> log == old(log) && manifest == old(manifest)
      ensures reorg.None? ==>
                if tipHash in chain.blocks && chain.blocks[tipHash].header.height > old(manifest).tipHeight then
                  var b := chain.blocks[tipHash];
                  && manifest == old(manifest).(tipHeight := b.header.height, tipHash := tipHash)
                  && files == old(files)[b.header.height := Filed(p, b)] && onDisk == Some(manifest)
                else log == old(log) && manifest == old(manifest) && files == old(files)
    {
      err := None;
      if reorg.None? {
        if tipHash !in chain.blocks || chain.blocks[tipHash].header.height <= manifest.tipHeight {
          assert log == old(log) + [];
          return;
        }
        AppendTip(chain.blocks[tipHash], tipHash);
        return;
      }
      if reorg.value.commonAncestor !in chain.blocks {
        assert log == old(log) + [];
        return Some(MissingAncestor);
      }
      SwitchSegment(chain.blocks[reorg.value.commonAncestor].header.height, reorg.value.added);
    }

    method AppendTip(b: Block, tipHash: Hash)
      modifies this
      ensures manifest == old(manifest).(tipHeight := b.header.height, tipHash := tipHash)
      ensures var ops := [PutBlock(Filed(p, b)), PutManifest(manifest)];
              log == old(log) + ops && Directory() == ApplyAll(old(Directory()), ops)
      ensures files == old(files)[b.header.height := Filed(p, b)] && onDisk == Some(manifest)
    {
      ghost var d, before := Directory(), log;
      WriteBlockFile(b);
      manifest := manifest.(tipHeight := b.header.height, tipHash := tipHash);
      SaveManifest();
      ApplyTwo(d, PutBlock(Filed(p, b)), PutManifest(manifest));
      assert log == before + [PutBlock(Filed(p, b)), PutManifest(manifest)];
    }

    method SwitchSegment(a: nat, added: seq<Block>)
      modifies this
      ensures var was := old(files);
              var kept := was - (set h | h in was && a < h <= old(manifest).tipHeight);
              manifest == Advanced(RolledBack(old(manifest), kept, a), added)
      ensures var ops := Removes(old(manifest).tipHeight, a) + Puts(p, added) + [PutManifest(manifest)];
              log == old(log) + ops && Directory() == ApplyAll(old(Directory()), ops)
      ensures onDisk == Some(manifest)
      ensures manifest.difficulty == old(manifest).difficulty
      ensures added != [] ==>
                manifest.tipHeight == added[|added| - 1].header.height && manifest.tipHash == added[|added| - 1].hash
    {
      ghost var d, before := Directory(), log;
      ghost var rs, ps := Removes(manifest.tipHeight, a), Puts(p, added);
      RollbackTo(a);
      WriteSegment(added);
      SaveManifest();
      ApplyAllConcat(d, rs, ps);
      ApplySnoc(d, rs + ps, PutManifest(manifest));
      assert log == before + (rs + ps + [PutManifest(manifest)]);
    }

    method WriteSegment(added: seq<Block>)
      modifies this
      ensures log == old(log) + Puts(p, added) && Directory() == ApplyAll(old(Directory()), Puts(p, added))
      ensures manifest == Advanced(old(manifest), added)
    {
      ghost var d, before, was := Directory(), log, manifest;
      ghost var ps := Puts(p, added);
      for i := 0 to |added|
        invariant log == before + ps[..i] && Directory() == ApplyAll(d, ps[..i])
        invariant manifest == Advanced(was, added[..i])
      {
        WriteBlockFile(added[i]);
        manifest := manifest.(tipHeight := added[i].header.height, tipHash := added[i].hash);
        ApplySnoc(d, ps[..i], ps[i]);
        assert ps[..i + 1] == ps[..i] + [ps[i]];
      }
      assert ps[..|ps|] == ps && added[..|added|] == added;
    }

    method RollbackTo(height: nat)
      modifies this
      ensures var rs := Removes(old(manifest).tipHeight, height);
              log == old(log) + rs && Directory() == ApplyAll(old(Directory()), rs)
      ensures var kept := old(files) - (set h | h in old(files) && height < h <= old(manifest).tipHeight);
              files == kept && manifest == RolledBack(old(manifest), kept, height)
      ensures manifest == old(manifest).(tipHeight := height,
                  tipHash := if height in old(files) then old(files)[height].hash else old(manifest).tipHash)
    {
      hide Removes, ApplyAll;
      ghost var d, before, was := Directory(), log, files;
      ghost var rs := Removes(manifest.tipHeight, height);
      NothingApplied(d);
      assert rs[..0] == [];
      var h := manifest.tipHeight;
      ghost var top := h;
      while h > height
        invariant h <= top && (h < top ==> height <= h) && manifest == old(manifest)
        invariant top - h <= |rs|
        invariant log == before + rs[..top - h] && Directory() == ApplyAll(d, rs[..top - h])
        invariant files == was - (set x | x in was && h < x <= top)
      {
        RemoveFile(h);
        DropOneMore(was, h, top);
        NextRemove(top, height, top - h, d);
        h := h - 1;
      }
      RemovesLength(top, height);
      assert rs[..|rs|] == rs;
      manifest := manifest.(tipHeight := height);
      if height in files {
        manifest := manifest.(tipHash := files[height].hash);
      }
    }
  }

  lemma NothingApplied(d: Disk)
    ensures ApplyAll(d, []) == d
  {}

  lemma RemovesLength(top: nat, height: nat)
    ensures |Removes(top, height)| == if height < top then top - height else 0
  {}

  lemma NextRemove(top: nat, height: nat, i: nat, d: Disk)
    requires i < top - height
    ensures var rs := Removes(top, height);
            && i < |rs| && rs[..i + 1] == rs[..i] + [Remove(top - i)]
            && ApplyAll(d, rs[..i + 1]) == Apply(ApplyAll(d, rs[..i]), Remove(top - i))
  {
    var rs := Removes(top, height);
    ApplySnoc(d, rs[..i], rs[i]);
    assert rs[..i + 1] == rs[..i] + [rs[i]];
  }

  lemma DropOneMore(was: map<nat, Block>, h: nat, top: nat)
    requires 0 < h <= top
    ensures (was - (set x | x in was && h < x <= top)) - {h} == was - (set x | x in was && h - 1 < x <= top)
  {}

  /** What loading returns, and where it cuts the manifest, file by file. */
  lemma LoadedAndCut(d: Disk)
    requires d.manifest.Some?
    ensures var m, n := d.manifest.value, |Load(d)|;
            && n <= m.tipHeight + 1 && (n <= m.tipHeight ==> n !in d.files)
            && (forall h | 0 <= h < n :: h in d.files && Load(d)[h] == d.files[h])
            && (n > 0 ==> Repaired(m, Load(d)) == if n == m.tipHeight + 1 then m
                          else m.(tipHeight := n - 1, tipHash := d.files[n - 1].hash))
  {
    LoadFromMeans(d.files, 0, d.manifest.value.tipHeight);
  }

  /** The manifest after loading: cut to what was loaded, untouched when nothing is missing. */
  function Repaired(m: Manifest, loaded: seq<Block>): Manifest {
    if loaded == [] || |loaded| == m.tipHeight + 1 then m
    else m.(tipHeight := |loaded| - 1, tipHash := loaded[|loaded| - 1].hash)
  }
}
