/** Transactions across a reorganisation: what moves between blocks and pool, and when none is lost. */
module Conservation {
  import opened Types
  import opened Tree
  import opened ForkChoice
  import opened Pool
  import opened Unreported
  import opened Orphans
  import opened Samples
  import Order

  /** The transactions of a run of blocks, in chain order. */
  function TxsOf(bs: seq<Block>): seq<Tx>
    decreases |bs|
  {
    if bs == [] then [] else TxsOf(bs[..|bs| - 1]) + bs[|bs| - 1].txs
  }

  lemma TxsOfSnoc(bs: seq<Block>, b: Block)
    ensures TxsOf(bs + [b]) == TxsOf(bs) + b.txs
  {
    assert (bs + [b])[..|bs + [b]| - 1] == bs;
  }

  lemma {:induction false} TxsOfConcat(xs: seq<Block>, ys: seq<Block>)
    ensures TxsOf(xs + ys) == TxsOf(xs) + TxsOf(ys)
    decreases |ys|
  {
    hide TxsOf;
    if ys == [] {
      assert xs + ys == xs;
      NoTxs();
    } else {
      var init, last := ys[..|ys| - 1], ys[|ys| - 1];
      TxsOfConcat(xs, init);
      assert ys == init + [last] && xs + ys == (xs + init) + [last];
      TxsOfSnoc(xs + init, last);
      TxsOfSnoc(init, last);
      assert (TxsOf(xs) + TxsOf(init)) + last.txs == TxsOf(xs) + (TxsOf(init) + last.txs);
    }
  }

  lemma NoTxs()
    ensures TxsOf([]) == []
  {}

  lemma TxIdsConcat(xs: seq<Tx>, ys: seq<Tx>)
    ensures TxIds(xs + ys) == TxIds(xs) + TxIds(ys)
  {
    assert forall t :: t in xs + ys <==> t in xs || t in ys;
  }

  ghost function ChainIds(bs: seq<Block>): set<string> { TxIds(TxsOf(bs)) }

  lemma ChainIdsConcat(xs: seq<Block>, ys: seq<Block>)
    ensures ChainIds(xs + ys) == ChainIds(xs) + ChainIds(ys)
  {
    TxsOfConcat(xs, ys);
    TxIdsConcat(TxsOf(xs), TxsOf(ys));
  }

  lemma {:induction false} ReturnAllConcat(cfg: Config, es: seq<Entry>, xs: seq<Tx>, ys: seq<Tx>, clock: nat -> int)
    ensures ReturnAll(cfg, es, xs + ys, clock) == ReturnAll(cfg, ReturnAll(cfg, es, xs, clock), ys, From(clock, |xs|))
    decreases |ys|
  {
    hide AddTo;
    if ys == [] {
      assert xs + ys == xs;
    } else {
      var k := |ys| - 1;
      ReturnAllConcat(cfg, es, xs, ys[..k], clock);
      assert (xs + ys)[..|xs| + k] == xs + ys[..k] && (xs + ys)[|xs| + k] == ys[k];
    }
  }

  // ---------- returning transactions ----------

  /** The transactions of `txs` not pooled yet, first occurrences only, in order. */
  ghost function Missing(es: seq<Entry>, txs: seq<Tx>): seq<Tx>
    decreases |txs|
  {
    if txs == [] then []
    else
      var init, last := txs[..|txs| - 1], txs[|txs| - 1];
      var m := Missing(es, init);
      if last.id in Ids(es) || last.id in TxIds(m) then m else m + [last]
  }

  /** Their entries, each with the reading taken when its transaction was returned. */
  ghost function MissingEntries(cfg: Config, es: seq<Entry>, txs: seq<Tx>, clock: nat -> int): seq<Entry>
    decreases |txs|
  {
    if txs == [] then []
    else
      var k := |txs| - 1;
      var m := MissingEntries(cfg, es, txs[..k], clock);
      if txs[k].id in Ids(es) || txs[k].id in TxIds(Missing(es, txs[..k])) then m
      else m + [EntryFor(cfg, txs[k], clock(k))]
  }

  function SizeOf(txs: seq<Tx>): nat
    decreases |txs|
  {
    if txs == [] then 0 else SizeOf(txs[..|txs| - 1]) + EstimateTxSize(txs[|txs| - 1])
  }

  /** The pool and all the missing transactions together are within both limits. */
  ghost predicate Fits(cfg: Config, es: seq<Entry>, missing: seq<Tx>) {
    |es| + |missing| <= cfg.maxTxs && TotalSize(es) + SizeOf(missing) <= cfg.maxBytes
  }

  lemma {:induction false} MissingIds(es: seq<Entry>, txs: seq<Tx>)
    ensures TxIds(txs) <= Ids(es) + TxIds(Missing(es, txs)) && TxIds(Missing(es, txs)) <= TxIds(txs)
    decreases |txs|
  {
    if txs != [] {
      var init, last := txs[..|txs| - 1], txs[|txs| - 1];
      MissingIds(es, init);
      assert txs == init + [last];
      TxIdsConcat(init, [last]);
      TxIdsConcat(Missing(es, init), [last]);
      assert TxIds([last]) == {last.id};
    }
  }

  lemma MissingSnoc(m: seq<Tx>, t: Tx)
    ensures SizeOf(m + [t]) == SizeOf(m) + EstimateTxSize(t) && TxIds(m + [t]) == TxIds(m) + {t.id}
  {
    assert (m + [t])[..|m|] == m;
    TxIdsConcat(m, [t]);
    assert TxIds([t]) == {t.id};
  }

  lemma AppendEntry(es: seq<Entry>, m: seq<Entry>, e: Entry)
    ensures es + (m + [e]) == (es + m) + [e]
    ensures TotalSize(es + (m + [e])) == TotalSize(es + m) + e.size && Ids(es + (m + [e])) == Ids(es + m) + {e.tx.id}
  {
    assert es + (m + [e]) == (es + m) + [e];
    TotalSizeSnoc(es + m, e);
    IdsGrow(es + m, e);
  }

  /** The missing entries are the missing transactions, with their sizes and IDs. */
  lemma {:induction false} MissingEntriesMeasure(cfg: Config, es: seq<Entry>, txs: seq<Tx>, clock: nat -> int)
    ensures var m, t := MissingEntries(cfg, es, txs, clock), Missing(es, txs);
            && |m| == |t| && (forall i | 0 <= i < |m| :: m[i].tx == t[i])
            && TotalSize(es + m) == TotalSize(es) + SizeOf(t) && Ids(es + m) == Ids(es) + TxIds(t)
    decreases |txs|
  {
    hide TotalSize, SizeOf;
    if txs == [] {
      NothingMissing(cfg, es, clock);
    } else {
      var k := |txs| - 1;
      MissingEntriesMeasure(cfg, es, txs[..k], clock);
      AppendEntry(es, MissingEntries(cfg, es, txs[..k], clock), EntryFor(cfg, txs[k], clock(k)));
      MissingSnoc(Missing(es, txs[..k]), txs[k]);
    }
  }

  lemma NothingMissing(cfg: Config, es: seq<Entry>, clock: nat -> int)
    ensures es + MissingEntries(cfg, es, [], clock) == es && SizeOf([]) == 0 && TxIds([]) == {}
  {}

  /** With room for everything missing, returning appends exactly the missing transactions, in order. */
  lemma {:induction false} ReturnAppendsMissing(cfg: Config, es: seq<Entry>, txs: seq<Tx>, clock: nat -> int)
    requires Fits(cfg, es, Missing(es, txs))
    ensures ReturnAll(cfg, es, txs, clock) == es + MissingEntries(cfg, es, txs, clock)
    decreases |txs|
  {
    hide TotalSize, SizeOf;
    if txs == [] {
      NothingMissing(cfg, es, clock);
    } else {
      var k := |txs| - 1;
      var m := Missing(es, txs[..k]);
      MissingSnoc(m, txs[k]);
      ReturnAppendsMissing(cfg, es, txs[..k], clock);
      MissingEntriesMeasure(cfg, es, txs[..k], clock);
      AcceptsMeans(cfg, es + MissingEntries(cfg, es, txs[..k], clock), txs[k]);
      AppendEntry(es, MissingEntries(cfg, es, txs[..k], clock), EntryFor(cfg, txs[k], clock(k)));
    }
  }

  lemma AcceptsMeans(cfg: Config, es: seq<Entry>, t: Tx)
    ensures Accepts(cfg, es, t) <==>
              t.id !in Ids(es) && |es| < cfg.maxTxs && TotalSize(es) + EstimateTxSize(t) <= cfg.maxBytes
  {}

  lemma {:induction false} ReturnKeepsPooled(cfg: Config, es: seq<Entry>, txs: seq<Tx>, clock: nat -> int)
    ensures es <= ReturnAll(cfg, es, txs, clock)
    ensures Ids(es) <= Ids(ReturnAll(cfg, es, txs, clock)) <= Ids(es) + TxIds(txs)
    decreases |txs|
  {
    if txs != [] {
      var init, last := txs[..|txs| - 1], txs[|txs| - 1];
      ReturnKeepsPooled(cfg, es, init, clock);
      var r := ReturnAll(cfg, es, init, clock);
      IdsGrow(r, EntryFor(cfg, last, clock(|init|)));
      assert txs == init + [last];
      TxIdsConcat(init, [last]);
      assert TxIds([last]) == {last.id};
    }
  }

  // ---------- exactly when nothing returned is turned away ----------

  /** A count of what returning would do, from the pool's length, bytes and IDs alone: no transaction outside
      `spare` meets a full pool without coming again later in the list. */
  ghost predicate NoneTurnedAway(cfg: Config, n: nat, bytes: nat, have: set<string>, txs: seq<Tx>, spare: set<string>)
    decreases |txs|
  {
    if txs == [] then true
    else
      var t, rest := txs[0], txs[1..];
      if t.id in have then NoneTurnedAway(cfg, n, bytes, have, rest, spare)
      else if n < cfg.maxTxs && bytes + EstimateTxSize(t) <= cfg.maxBytes then
        NoneTurnedAway(cfg, n + 1, bytes + EstimateTxSize(t), have + {t.id}, rest, spare)
      else (t.id in spare || t.id in TxIds(rest)) && NoneTurnedAway(cfg, n, bytes, have, rest, spare)
  }

  /** Every returned transaction outside `spare` ends up pooled if and only if the count says so. */
  lemma {:induction false} ReturnKeepsIffNoneTurnedAway(cfg: Config, es: seq<Entry>, txs: seq<Tx>, clock: nat -> int,
                                                        spare: set<string>)
    ensures TxIds(txs) <= Ids(ReturnAll(cfg, es, txs, clock)) + spare
            <==> NoneTurnedAway(cfg, |es|, TotalSize(es), Ids(es), txs, spare)
    decreases |txs|
  {
    hide TotalSize, Accepts, Ids;
    if txs == [] {
      assert TxIds(txs) == {};
    } else {
      var t, rest := txs[0], txs[1..];
      var e := EntryFor(cfg, t, clock(0));
      var now := AddTo(cfg, es, t, clock(0));
      ReturnFirst(cfg, es, txs, clock);
      AcceptsMeans(cfg, es, t);
      TotalSizeSnoc(es, e);
      IdsGrow(es, e);
      ReturnKeepsIffNoneTurnedAway(cfg, now, rest, From(clock, 1), spare);
      ReturnKeepsPooled(cfg, now, rest, From(clock, 1));
    }
  }

  lemma ReturnFirst(cfg: Config, es: seq<Entry>, txs: seq<Tx>, clock: nat -> int)
    requires txs != []
    ensures ReturnAll(cfg, es, txs, clock) == ReturnAll(cfg, AddTo(cfg, es, txs[0], clock(0)), txs[1..], From(clock, 1))
    ensures TxIds(txs) == {txs[0].id} + TxIds(txs[1..])
  {
    var t, rest := txs[0], txs[1..];
    assert [t][..0] == [];
    assert ReturnAll(cfg, es, [t], clock) == AddTo(cfg, es, t, clock(0));
    ReturnAllConcat(cfg, es, [t], rest, clock);
    assert [t] + rest == txs;
    TxIdsConcat([t], rest);
    assert TxIds([t]) == {t.id};
  }

  // ---------- in closed form ----------

  ghost predicate IdsIdentify(txs: seq<Tx>) {
    forall t, u | t in txs && u in txs && t.id == u.id :: t == u
  }

  /** A transaction that did not get in found no room, and there is still none. */
  lemma {:induction false} RefusedForRoom(cfg: Config, es: seq<Entry>, txs: seq<Tx>, clock: nat -> int, t: Tx)
    requires t in txs && t.id !in Ids(ReturnAll(cfg, es, txs, clock))
    ensures var r := ReturnAll(cfg, es, txs, clock);
            |r| >= cfg.maxTxs || TotalSize(r) + EstimateTxSize(t) > cfg.maxBytes
    decreases |txs|
  {
    hide TotalSize, Accepts;
    var init, last := txs[..|txs| - 1], txs[|txs| - 1];
    var r := ReturnAll(cfg, es, init, clock);
    TotalSizeSnoc(r, EntryFor(cfg, last, clock(|init|)));
    IdsGrow(r, EntryFor(cfg, last, clock(|init|)));
    AcceptsMeans(cfg, r, last);
    if t in init {
      RefusedForRoom(cfg, es, init, clock, t);
    } else {
      assert t == last by { assert txs == init + [last]; }
    }
  }

  /** When an ID names one transaction, every returned one ends up pooled if and only if pool and missing
      transactions fit together. */
  lemma {:induction false} ReturnKeepsAllIffFits(cfg: Config, es: seq<Entry>, txs: seq<Tx>, clock: nat -> int)
    requires |es| <= cfg.maxTxs && TotalSize(es) <= cfg.maxBytes && IdsIdentify(txs)
    ensures TxIds(txs) <= Ids(ReturnAll(cfg, es, txs, clock)) <==> Fits(cfg, es, Missing(es, txs))
    decreases |txs|
  {
    hide TotalSize, SizeOf;
    if Fits(cfg, es, Missing(es, txs)) {
      ReturnAppendsMissing(cfg, es, txs, clock);
      MissingEntriesMeasure(cfg, es, txs, clock);
      MissingIds(es, txs);
    }
    if TxIds(txs) <= Ids(ReturnAll(cfg, es, txs, clock)) {
      AllReturnedFits(cfg, es, txs, clock);
    }
  }

  lemma {:induction false} AllReturnedFits(cfg: Config, es: seq<Entry>, txs: seq<Tx>, clock: nat -> int)
    requires |es| <= cfg.maxTxs && TotalSize(es) <= cfg.maxBytes && IdsIdentify(txs)
    requires TxIds(txs) <= Ids(ReturnAll(cfg, es, txs, clock))
    ensures Fits(cfg, es, Missing(es, txs))
    decreases |txs|
  {
    hide TotalSize, SizeOf;
    if txs == [] {
      NothingMissing(cfg, es, clock);
    } else {
      var init, last := txs[..|txs| - 1], txs[|txs| - 1];
      InitReturned(cfg, es, txs, clock);
      assert IdsIdentify(init);
      AllReturnedFits(cfg, es, init, clock);
      ReturnAppendsMissing(cfg, es, init, clock);
      MissingEntriesMeasure(cfg, es, init, clock);
      MissingSnoc(Missing(es, init), last);
      AcceptsMeans(cfg, es + MissingEntries(cfg, es, init, clock), last);
      assert last in txs && last.id in TxIds(txs);
    }
  }

  /** If all of `txs` got in, all but the last had got in before the last was tried. */
  lemma InitReturned(cfg: Config, es: seq<Entry>, txs: seq<Tx>, clock: nat -> int)
    requires txs != [] && IdsIdentify(txs) && TxIds(txs) <= Ids(ReturnAll(cfg, es, txs, clock))
    ensures TxIds(txs[..|txs| - 1]) <= Ids(ReturnAll(cfg, es, txs[..|txs| - 1], clock))
  {
    var init, last := txs[..|txs| - 1], txs[|txs| - 1];
    var r := ReturnAll(cfg, es, init, clock);
    IdsGrow(r, EntryFor(cfg, last, clock(|init|)));
    AcceptsMeans(cfg, r, last);
    forall t | t in init ensures t.id in Ids(r) {
      assert t in txs && t.id in TxIds(txs) && last in txs;
      if t.id !in Ids(r) {
        RefusedForRoom(cfg, es, init, clock, t);
      }
    }
  }

  /** The closed form needs IDs to identify: of two transactions under one ID, the larger may be refused and the
      smaller taken, so the ID is pooled although the larger does not fit. */
  lemma TwoSizesUnderOneId(cfg: Config, clock: nat -> int)
    requires cfg.maxTxs > 0 && cfg.maxBytes == 110
    ensures var txs := [Tx("a", 0, "xx"), Tx("a", 0, "")];
            TxIds(txs) <= Ids(ReturnAll(cfg, [], txs, clock)) && !Fits(cfg, [], Missing([], txs))
  {
    var big, small := Tx("a", 0, "xx"), Tx("a", 0, "");
    var txs := [big, small];
    assert txs[..1] == [big] && [big][..0] == [];
    assert Missing([], [big]) == [big] && ReturnAll(cfg, [], [big], clock) == [];
    assert ReturnAll(cfg, [], txs, clock) == [EntryFor(cfg, small, clock(1))];
    assert EntryFor(cfg, small, clock(1)).tx.id == "a";
  }

  // ---------- a whole reorganisation ----------

  /** Return the removed blocks' transactions, then drop what the added blocks confirm. */
  function PoolAfterReorg(cfg: Config, es: seq<Entry>, r: Reorg, clock: nat -> int): seq<Entry> {
    Keep(ReturnAll(cfg, es, TxsOf(r.removed), clock), NotIn(set t | t in TxsOf(r.added) :: t.id))
  }

  lemma WithoutIds(es: seq<Entry>, ids: set<string>)
    ensures Ids(Without(es, ids)) == Ids(es) - ids
  {
    KeepMembers(es, NotIn(ids));
    forall id ensures id in Ids(Without(es, ids)) <==> id in Ids(es) && id !in ids {
      if id in Ids(es) && id !in ids {
        var e :| e in es && e.tx.id == id;
        assert e in Without(es, ids);
      }
    }
  }

  lemma AfterReorgIds(cfg: Config, es: seq<Entry>, r: Reorg, clock: nat -> int)
    ensures Ids(PoolAfterReorg(cfg, es, r, clock))
            == Ids(ReturnAll(cfg, es, TxsOf(r.removed), clock)) - ChainIds(r.added)
    ensures PoolAfterReorg(cfg, es, r, clock) == Without(ReturnAll(cfg, es, TxsOf(r.removed), clock), ChainIds(r.added))
  {
    assert ChainIds(r.added) == set t | t in TxsOf(r.added) :: t.id;
    WithoutIds(ReturnAll(cfg, es, TxsOf(r.removed), clock), ChainIds(r.added));
  }

  /** The two main chains of a reported reorganisation, as sets of transaction IDs. */
  lemma ReorgChainIds(p: Params, s: Tree, b: Block) returns (shared: set<string>)
    requires Inv(p, s) && Connect(p, s, b).res.reorg.Some?
    ensures Linked(s) && Linked(Connect(p, s, b).tree)
    ensures var c := Connect(p, s, b); var r := c.res.reorg.value;
            && ChainIds(MainChain(s)) == shared + ChainIds(r.removed)
            && ChainIds(MainChain(c.tree)) == shared + ChainIds(r.added)
  {
    hide Connect, Inv, ChainIds;
    InvTrees(p, s, b);
    MainChainAfterConnect(p, s, b);
    TipRisesByOne(p, s, b);
    var r, was := Connect(p, s, b).res.reorg.value, MainChain(s);
    var k := s.height[r.commonAncestor] + 1;
    ChainIdsConcat(was[..k], r.removed);
    ChainIdsConcat(was[..k], r.added);
    shared := ChainIds(was[..k]);
  }

  lemma InvTrees(p: Params, s: Tree, b: Block)
    requires Inv(p, s)
    ensures Linked(s) && Linked(Connect(p, s, b).tree)
  {}

  /** Every ID pooled or on the old main chain is afterwards pooled or on the new main chain. */
  ghost predicate NoneLost(was: set<string>, wasPooled: set<string>, now: set<string>, nowPooled: set<string>) {
    was + wasPooled <= now + nowPooled
  }

  /** A reported reorganisation loses no transaction if and only if none that the final main chain lacks is turned
      away when the removed blocks' transactions are returned. In any case nothing pooled is lost, and nothing
      confirmed by the added blocks stays pooled. */
  lemma ReorgConservesIffNoneTurnedAway(p: Params, s: Tree, b: Block, t: Tree, cfg: Config, es: seq<Entry>,
                                        clock: nat -> int)
    requires Inv(p, s) && Quiescent(s) && AddStep(p, s, b, t) && Connect(p, s, b).res.reorg.Some?
    ensures Linked(s) && Linked(t)
    ensures var r := Connect(p, s, b).res.reorg.value;
            var after := Ids(PoolAfterReorg(cfg, es, r, clock)); var now := ChainIds(MainChain(t));
            && after !! ChainIds(r.added) && Ids(es) <= after + now
            && (NoneLost(ChainIds(MainChain(s)), Ids(es), now, after)
                <==> NoneTurnedAway(cfg, |es|, TotalSize(es), Ids(es), TxsOf(r.removed), now))
  {
    hide Connect, Inv, PoolAfterReorg, NoneTurnedAway, ReturnAll, TxsOf, TotalSize, Ids, AddStep, Quiescent, ChainIds;
    var shared := FinalReorgIds(p, s, b, t);
    var r := Connect(p, s, b).res.reorg.value;
    AfterReorgIds(cfg, es, r, clock);
    ReturnKeepsPooled(cfg, es, TxsOf(r.removed), clock);
    ReturnKeepsIffNoneTurnedAway(cfg, es, TxsOf(r.removed), clock, ChainIds(MainChain(t)));
    assert ChainIds(r.removed) == TxIds(TxsOf(r.removed)) by { ChainIdsMean(r.removed); }
  }

  lemma ChainIdsMean(bs: seq<Block>)
    ensures ChainIds(bs) == TxIds(TxsOf(bs))
  {}

  /** In closed form. When pool and missing transactions fit together nothing is lost, and the pool is the old one
      followed by the missing transactions, without what the added blocks confirm. When an ID names one
      transaction and none missing is on the final main chain, fitting together is also necessary. */
  lemma ReorgConservesIffFits(p: Params, s: Tree, b: Block, t: Tree, cfg: Config, es: seq<Entry>, clock: nat -> int)
    requires Inv(p, s) && Quiescent(s) && AddStep(p, s, b, t) && Connect(p, s, b).res.reorg.Some?
    requires |es| <= cfg.maxTxs && TotalSize(es) <= cfg.maxBytes
    ensures Linked(s) && Linked(t)
    ensures var r := Connect(p, s, b).res.reorg.value; var missing := Missing(es, TxsOf(r.removed));
            var after := PoolAfterReorg(cfg, es, r, clock); var now := ChainIds(MainChain(t));
            && (Fits(cfg, es, missing) ==>
                  && NoneLost(ChainIds(MainChain(s)), Ids(es), now, Ids(after))
                  && after == Without(es + MissingEntries(cfg, es, TxsOf(r.removed), clock), ChainIds(r.added)))
            && (IdsIdentify(TxsOf(r.removed)) && TxIds(missing) !! now ==>
                  (NoneLost(ChainIds(MainChain(s)), Ids(es), now, Ids(after)) <==> Fits(cfg, es, missing)))
  {
    hide Connect, Inv, PoolAfterReorg, ReturnAll, TxsOf, TotalSize, Ids, Fits, Missing, IdsIdentify, MissingEntries;
    hide AddStep, Quiescent, ChainIds;
    var shared := FinalReorgIds(p, s, b, t);
    var r := Connect(p, s, b).res.reorg.value;
    var txs := TxsOf(r.removed);
    ChainIdsMean(r.removed);
    AfterReorgIds(cfg, es, r, clock);
    ReturnKeepsPooled(cfg, es, txs, clock);
    MissingIds(es, txs);
    if Fits(cfg, es, Missing(es, txs)) {
      ReturnAppendsMissing(cfg, es, txs, clock);
      MissingEntriesMeasure(cfg, es, txs, clock);
    }
    if IdsIdentify(txs) {
      ReturnKeepsAllIffFits(cfg, es, txs, clock);
    }
  }

  lemma PrefixIds(xs: seq<Block>, ys: seq<Block>)
    requires xs <= ys
    ensures ChainIds(xs) <= ChainIds(ys)
  {
    ChainIdsConcat(xs, ys[|xs|..]);
    assert ys == xs + ys[|xs|..];
  }

  /** The old main chain and the final one across a reported reorganisation, as sets of transaction IDs. */
  lemma FinalReorgIds(p: Params, s: Tree, b: Block, t: Tree) returns (shared: set<string>)
    requires Inv(p, s) && Quiescent(s) && AddStep(p, s, b, t) && Connect(p, s, b).res.reorg.Some?
    ensures Linked(s) && Linked(t)
    ensures var r := Connect(p, s, b).res.reorg.value;
            && ChainIds(MainChain(s)) == shared + ChainIds(r.removed)
            && shared + ChainIds(r.added) <= ChainIds(MainChain(t))
  {
    hide Connect, Inv, AddStep, Quiescent, ChainIds, Overtakes;
    shared := ReorgChainIds(p, s, b);
    FinalChain(p, s, b, t);
    TipRisesByOne(p, s, b);
    PrefixIds(MainChain(Connect(p, s, b).tree), MainChain(t));
  }

  // ---------- a whole submission ----------

  /** The pool after a block's own step: reorganised, cleared of the new tip's transactions, or untouched. */
  ghost function PoolAfter(cfg: Config, es: seq<Entry>, res: AddResult, b: Block, clock: nat -> int): seq<Entry> {
    if res.reorg.Some? then PoolAfterReorg(cfg, es, res.reorg.value, clock)
    else if res.isNewTip then Without(es, TxIds(b.txs))
    else es
  }

  /** What joins the main chain leaves the pool. When a block's own step moves the tip, nothing pooled afterwards is in
      a block that joined the main chain; when it extends the tip, every other entry stays, in order, and none
      is added; when it leaves the tip, the pool is untouched. */
  lemma ConfirmedLeavePool(p: Params, s: Tree, b: Block, cfg: Config, es: seq<Entry>, clock: nat -> int)
    requires Inv(p, s)
    ensures Linked(s) && Linked(Connect(p, s, b).tree)
    ensures var t, after := Connect(p, s, b).tree, PoolAfter(cfg, es, Connect(p, s, b).res, b, clock);
            && (t.tip != s.tip ==> forall x, tx, e ::
                  x in MainChain(t) && x !in MainChain(s) && tx in x.txs && e in after ==> e.tx.id != tx.id)
            && (t.tip != s.tip && MainChain(s) <= MainChain(t) ==> OnlyDrops(es, TxIds(b.txs), after))
            && (t.tip == s.tip ==> after == es)
  {
    hide Connect, Inv, PoolAfterReorg, TxsOf, Ids, Without, OnlyDrops;
    InvTrees(p, s, b);
    var r := Connect(p, s, b);
    var was, now, after := MainChain(s), MainChain(r.tree), PoolAfter(cfg, es, r.res, b, clock);
    TipRisesByOne(p, s, b);
    MainChainAfterConnect(p, s, b);
    if r.res.reorg.Some? {
      AfterReorgIds(cfg, es, r.res.reorg.value, clock);
      SwitchIsNoExtension(p, s, b);
      forall x, t, e | x in now && x !in was && t in x.txs && e in after ensures e.tx.id != t.id {
        PooledIsNot(after, r.res.reorg.value.added, x, t, e);
      }
    } else if r.res.isNewTip {
      NewTipIsBlock(p, s, b);
      WithoutIds(es, TxIds(b.txs));
      WithoutOnlyDrops(es, TxIds(b.txs));
      forall x, t, e | x in now && x !in was && t in x.txs && e in after ensures e.tx.id != t.id {
        assert t.id in TxIds(b.txs);
        PooledId(after, e);
      }
    }
  }

  lemma PooledId(es: seq<Entry>, e: Entry)
    requires e in es
    ensures e.tx.id in Ids(es)
  {}

  lemma PooledIsNot(es: seq<Entry>, added: seq<Block>, x: Block, t: Tx, e: Entry)
    requires Ids(es) !! ChainIds(added) && x in added && t in x.txs && e in es
    ensures e.tx.id != t.id
  {
    TxInBlocks(added, x, t);
    assert t.id in ChainIds(added);
    PooledId(es, e);
  }

  /** A reported switch drops a block of the old main chain. */
  lemma SwitchIsNoExtension(p: Params, s: Tree, b: Block)
    requires Inv(p, s) && Connect(p, s, b).res.reorg.Some?
    ensures Linked(s) && Linked(Connect(p, s, b).tree)
    ensures var was, now := MainChain(s), MainChain(Connect(p, s, b).tree); !(was <= now)
    ensures var was, now := MainChain(s), MainChain(Connect(p, s, b).tree);
            forall x | x in now && x !in was :: x in Connect(p, s, b).res.reorg.value.added
  {
    hide Connect, Inv, Path, CommonLength, Link;
    InvTrees(p, s, b);
    ReorgIsReported(p, s, b);
    var t := Connect(p, s, b).tree;
    var r, was, now := Connect(p, s, b).res.reorg.value, MainChain(s), MainChain(t);
    TipRisesByOne(p, s, b);
    MainChainAfterConnect(p, s, b);
    ReorgSplitsAtDeepestAncestor(p, t, s.tip, t.tip);
    var k := s.height[r.commonAncestor] + 1;
    assert was[k] == r.removed[0] && now[k] == r.added[0];
    assert r.removed[0] in r.removed && r.added[0] in r.added;
  }

  /** The main-chain blocks that leave the main chain if the tip moves on top of `b`. */
  ghost function Abandoned(s: Tree, b: Block): seq<Block>
    requires Linked(s)
  {
    if b.header.prevHash in s.blocks then Difference(s, s.tip, b.header.prevHash).removed else []
  }

  /** Exactly when accepting a block loses no transaction, adoption included. A reported reorganisation loses none
      if and only if it turns none away that the final main chain lacks. Any other call loses none unless
      waiting orphans carry the tip onto another branch without a report; then nothing is returned to the pool,
      and none is lost if and only if the abandoned blocks' transactions are all pooled or on the new branch. */
  lemma SubmissionConservesIff(p: Params, s: Tree, b: Block, t: Tree, cfg: Config, es: seq<Entry>, clock: nat -> int)
    requires Inv(p, s) && Quiescent(s) && AddStep(p, s, b, t)
    ensures Linked(s) && Linked(t) && Linked(Connect(p, s, b).tree)
    ensures !Overtakes(p, s, b) ==> MainChain(t) == MainChain(Connect(p, s, b).tree)
    ensures var r := Connect(p, s, b).res; var now := ChainIds(MainChain(t));
            var after := Ids(PoolAfter(cfg, es, r, b, clock));
            && Ids(es) <= after + now
            && (NoneLost(ChainIds(MainChain(s)), Ids(es), now, after) <==>
                  if r.reorg.Some? then
                    NoneTurnedAway(cfg, |es|, TotalSize(es), Ids(es), TxsOf(r.reorg.value.removed), now)
                  else r.isNewTip || !Overtakes(p, s, b) || ChainIds(Abandoned(s, b)) <= Ids(es) + now)
  {
    hide Connect, Inv, PoolAfterReorg, NoneTurnedAway, TxsOf, TotalSize, Ids, AddStep, Quiescent, ChainIds, Overtakes;
    hide Abandoned, Without;
    FinalChain(p, s, b, t);
    var r := Connect(p, s, b);
    ReorgIsNewTip(p, s, b);
    MainChainAfterConnect(p, s, b);
    if r.res.reorg.Some? {
      ReorgConservesIffNoneTurnedAway(p, s, b, t, cfg, es, clock);
    } else if r.res.isNewTip {
      ExtensionIds(p, s, b, t, es);
    } else if Overtakes(p, s, b) {
      var shared := AbandonedIds(p, s, b, t);
    }
  }

  lemma ReorgIsNewTip(p: Params, s: Tree, b: Block)
    requires Inv(p, s)
    ensures Connect(p, s, b).res.reorg.Some? ==> Connect(p, s, b).res.isNewTip
  {}

  lemma ExtensionIds(p: Params, s: Tree, b: Block, t: Tree, es: seq<Entry>)
    requires Inv(p, s) && Quiescent(s) && AddStep(p, s, b, t)
    requires Connect(p, s, b).res.isNewTip && Connect(p, s, b).res.reorg.None?
    ensures Linked(s) && Linked(t)
    ensures ChainIds(MainChain(s)) <= ChainIds(MainChain(t))
    ensures Ids(es) <= Ids(Without(es, TxIds(b.txs))) + ChainIds(MainChain(t))
  {
    hide Connect, Inv, AddStep, Quiescent, Overtakes, TxsOf, Without, Ids;
    FinalChain(p, s, b, t);
    MainChainAfterConnect(p, s, b);
    var was, mid := MainChain(s), MainChain(Connect(p, s, b).tree);
    PrefixIds(was, mid);
    PrefixIds(mid, MainChain(t));
    WithoutIds(es, TxIds(b.txs));
    NewTipIsBlock(p, s, b);
    forall x | x in b.txs ensures x in TxsOf(mid) {
      TxInBlocks(mid, mid[|mid| - 1], x);
    }
  }

  lemma NewTipIsBlock(p: Params, s: Tree, b: Block)
    requires Inv(p, s) && Connect(p, s, b).res.isNewTip
    ensures var t := Connect(p, s, b).tree; t.tip in t.blocks && t.blocks[t.tip].txs == b.txs
  {}

  /** The old main chain, when the tip moves on top of `b` unreported: a part shared with the final main chain, and
      the abandoned blocks. */
  lemma AbandonedIds(p: Params, s: Tree, b: Block, t: Tree) returns (shared: set<string>)
    requires Inv(p, s) && Quiescent(s) && AddStep(p, s, b, t) && Overtakes(p, s, b)
    ensures Linked(s) && Linked(t)
    ensures ChainIds(MainChain(s)) == shared + ChainIds(Abandoned(s, b)) && shared <= ChainIds(MainChain(t))
  {
    hide Connect, Inv, AddStep, Quiescent, Overtakes, ChainIds, CommonLength, Linked, Path;
    FinalChain(p, s, b, t);
    InvLinked(p, s);
    var q := b.header.prevHash;
    var pa, pb := Path(s, s.tip), Path(s, q);
    var k := CommonLength(pa, pb);
    SplitBlocks(s, pa, pb, k);
    var was := MainChain(s);
    ChainIdsConcat(was[..k], Abandoned(s, b));
    shared := ChainIds(was[..k]);
    var branch := BlocksAt(s, pb);
    assert branch[..k] == was[..k];
    PrefixIds(branch[..k], MainChain(t));
  }

  // ---------- a loss ----------

  lemma {:induction false} FullReturnsNothing(cfg: Config, es: seq<Entry>, txs: seq<Tx>, clock: nat -> int)
    requires |es| >= cfg.maxTxs
    ensures ReturnAll(cfg, es, txs, clock) == es
    decreases |txs|
  {
    if txs != [] {
      FullReturnsNothing(cfg, es, txs[..|txs| - 1], clock);
    }
  }

  /** Returning before removing loses transactions a full pool would have had room for: in a reported
      reorganisation every returned transaction is refused, also one that no block of the new main chain confirms,
      although the added blocks then free places. */
  lemma FullPoolLosesReturned(p: Params, s: Tree, b: Block, cfg: Config, es: seq<Entry>, clock: nat -> int, t: Tx)
    requires Inv(p, s) && Connect(p, s, b).res.reorg.Some? && |es| == cfg.maxTxs
    requires Linked(Connect(p, s, b).tree) && t in TxsOf(Connect(p, s, b).res.reorg.value.removed)
    requires t.id !in Ids(es) && t.id !in ChainIds(MainChain(Connect(p, s, b).tree))
    requires exists e :: e in es && e.tx.id in ChainIds(Connect(p, s, b).res.reorg.value.added)
    ensures Linked(s) && t.id in ChainIds(MainChain(s))
    ensures var r := Connect(p, s, b).res.reorg.value; var after := PoolAfterReorg(cfg, es, r, clock);
            t.id !in Ids(after) && |after| < cfg.maxTxs
  {
    hide Connect, Inv, ReturnAll, TxsOf, Ids, TotalSize;
    var shared := ReorgChainIds(p, s, b);
    var r := Connect(p, s, b).res.reorg.value;
    FullReturnsNothing(cfg, es, TxsOf(r.removed), clock);
    AfterReorgIds(cfg, es, r, clock);
    var e :| e in es && e.tx.id in ChainIds(r.added);
    var i :| 0 <= i < |es| && es[i] == e;
    DropsOne(es, NotIn(ChainIds(r.added)), i);
  }

  lemma {:induction false} DropsOne(es: seq<Entry>, test: Entry -> bool, i: nat)
    requires i < |es| && !test(es[i])
    ensures |Keep(es, test)| < |es|
    decreases |es|
  {
    hide Keep, TotalSize;
    var init, last := es[..|es| - 1], es[|es| - 1];
    assert es == init + [last];
    KeepSnoc(init, last, test);
    if i < |init| {
      assert init[i] == es[i];
      DropsOne(init, test, i);
    } else {
      KeepMembers(init, test);
    }
  }

  lemma {:induction false} TxInBlocks(bs: seq<Block>, b: Block, t: Tx)
    requires b in bs && t in b.txs
    ensures t in TxsOf(bs)
    decreases |bs|
  {
    var init, last := bs[..|bs| - 1], bs[|bs| - 1];
    if b != last {
      assert bs == init + [last];
      TxInBlocks(init, b, t);
    }
  }

  /** It happens: a node whose pool holds one transaction, as many as it may, follows a longer branch that confirms
      it. The transaction of the abandoned block is returned to the full pool and refused; it is afterwards
      neither pooled nor on the main chain, and the pool is empty. */
  lemma LossInstance(zero: Hash, hs: seq<Hash>, clock: nat -> int)
    returns (p: Params, s: Tree, b: Block, cfg: Config, es: seq<Entry>, t: Tx)
    requires |hs| == 4 && Order.Apart(zero, hs)
    ensures Inv(p, s) && Connect(p, s, b).res.reorg.Some? && Linked(s) && Linked(Connect(p, s, b).tree)
    ensures |es| == cfg.maxTxs == 1 && t.id in ChainIds(MainChain(s))
    ensures var after := PoolAfterReorg(cfg, es, Connect(p, s, b).res.reorg.value, clock);
            after == [] && t.id !in ChainIds(MainChain(Connect(p, s, b).tree))
  {
    hide Inv, Connect, Linked, ReturnAll, Keep;
    t := Tx("lost", 0, "");
    var u := Tx("kept", 0, "");
    var left, right, now;
    p, s, left, right, b, now := SwitchSample(zero, hs, [t], [u]);
    cfg := Config(1, 1000, 0, 0);
    es := [EntryFor(cfg, u, 0)];
    TxInBlocks([left], left, t);
    TxInBlocks([right, b], b, u);
    assert u.id in ChainIds([right, b]);
    assert es[0] in es;
    ThreeBlockIds(MainChain(now), t);
    FullPoolLosesReturned(p, s, b, cfg, es, clock, t);
  }

  lemma ThreeBlockIds(bs: seq<Block>, t: Tx)
    requires |bs| == 3 && forall b | b in bs :: forall u | u in b.txs :: u.id != t.id
    ensures t.id !in ChainIds(bs)
  {
    hide TxsOf;
    NoTxs();
    TxsOfSnoc([], bs[0]);
    TxsOfSnoc([] + [bs[0]], bs[1]);
    TxsOfSnoc([] + [bs[0]] + [bs[1]], bs[2]);
    assert bs == [] + [bs[0]] + [bs[1]] + [bs[2]];
  }

  /** It happens however much room the pool has: the tip holds a transaction, `x` waits for `b`, and `b` arrives at
      the tip's height. Its own step files it beside the main chain and reports nothing; adoption moves the tip
      to `x`; the transaction is neither returned nor on the main chain. */
  lemma UnreportedLossInstance(zero: Hash, hs: seq<Hash>, cfg: Config, clock: nat -> int)
    returns (p: Params, s: Tree, b: Block, v: Tree, t: Tx)
    requires |hs| == 4 && Order.Apart(zero, hs)
    ensures Inv(p, s) && Quiescent(s) && AddStep(p, s, b, v) && Linked(s) && Linked(v)
    ensures var r := Connect(p, s, b).res; r.added && !r.isNewTip && r.reorg.None? && Overtakes(p, s, b)
    ensures t.id in ChainIds(MainChain(s)) && t.id !in ChainIds(MainChain(v))
    ensures PoolAfter(cfg, [], Connect(p, s, b).res, b, clock) == []
  {
    hide Inv, Connect, Linked, Overtakes, AddStep, Quiescent;
    p := Params(Order.ToyCrypto(zero, hs), 0);
    Order.ToyCryptoValid(zero, hs);
    var g := Block(Header(0, zero, 0, 0, "genesis", zero), 0, zero, []);
    t := Tx("lost", 0, "");
    var left := Block(Header(1, hs[0], 1, 0, "a", zero), 1, hs[1], [t]);
    b := Block(Header(1, hs[0], 1, 0, "b", zero), 2, hs[2], []);
    var x := Block(Header(2, hs[2], 2, 0, "b", zero), 3, hs[3], []);
    s := OneAndWaiting(p, g, left, x);
    v := OvertakenBy(p, s, left, b, x);
    TxInBlocks(MainChain(s), left, t);
    ThreeBlockIds(MainChain(v), t);
  }
}
