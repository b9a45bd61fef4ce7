/** The mempool as a value: what each operation does to the sequence of pending entries. */
module Pool {
  import opened Types

  datatype Config = Config(maxTxs: int, maxBytes: int, ttl: int, invCooldown: int)

  datatype Entry = Entry(tx: Tx, addedAt: int, expiresAt: int, size: nat)

  function EstimateTxSize(tx: Tx): nat { |tx.id| + |tx.payload| + 8 + 100 }

  function EntryFor(cfg: Config, tx: Tx, now: int): Entry {
    Entry(tx, now, now + cfg.ttl, EstimateTxSize(tx))
  }

  ghost function Ids(es: seq<Entry>): set<string> {
    set e | e in es :: e.tx.id
  }

  ghost function TxIds(txs: seq<Tx>): set<string> {
    set t | t in txs :: t.id
  }

  function TotalSize(es: seq<Entry>): nat {
    if es == [] then 0 else TotalSize(es[..|es| - 1]) + es[|es| - 1].size
  }

  ghost predicate DistinctIds(es: seq<Entry>) {
    forall i, j | 0 <= i < j < |es| :: es[i].tx.id != es[j].tx.id
  }

  /** The pool's index maps and byte count agree with its entries, and both limits hold. */
  ghost predicate Agree(cfg: Config, es: seq<Entry>, seen: set<string>, expiry: map<string, int>, bytes: int) {
    && DistinctIds(es)
    && seen == Ids(es) && expiry.Keys == Ids(es)
    && (forall e | e in es :: expiry[e.tx.id] == e.expiresAt && e.size == EstimateTxSize(e.tx))
    && bytes == TotalSize(es)
    && |es| <= cfg.maxTxs && TotalSize(es) <= cfg.maxBytes
  }

  // ---------- operations ----------

  predicate Accepts(cfg: Config, es: seq<Entry>, tx: Tx) {
    && (forall e | e in es :: e.tx.id != tx.id)
    && |es| < cfg.maxTxs && TotalSize(es) + EstimateTxSize(tx) <= cfg.maxBytes
  }

  function AddTo(cfg: Config, es: seq<Entry>, tx: Tx, now: int): seq<Entry> {
    if Accepts(cfg, es, tx) then es + [EntryFor(cfg, tx, now)] else es
  }

  /** The clock as read from its k-th reading on. */
  function From(clock: nat -> int, k: nat): nat -> int { (i: nat) => clock(k + i) }

  /** Add each transaction in turn, each with its own clock reading. */
  function ReturnAll(cfg: Config, es: seq<Entry>, txs: seq<Tx>, clock: nat -> int): seq<Entry>
    decreases |txs|
  {
    if txs == [] then es
    else
      var k := |txs| - 1;
      AddTo(cfg, ReturnAll(cfg, es, txs[..k], clock), txs[k], clock(k))
  }

  /** The entries that pass a test, in order. */
  function Keep(es: seq<Entry>, test: Entry -> bool): seq<Entry>
    decreases |es|
  {
    if es == [] then []
    else Keep(es[..|es| - 1], test) + (if test(es[|es| - 1]) then [es[|es| - 1]] else [])
  }

  function NotIn(ids: set<string>): Entry -> bool { (e: Entry) => e.tx.id !in ids }

  function LiveAt(now: int): Entry -> bool { (e: Entry) => now <= e.expiresAt }

  function Expired(now: int): Entry -> bool { (e: Entry) => e.expiresAt < now }

  function Without(es: seq<Entry>, ids: set<string>): seq<Entry> { Keep(es, NotIn(ids)) }

  function PopCount(es: seq<Entry>, max: int): (k: nat)
    ensures k <= |es|
  {
    if max <= 0 then 0 else if max > |es| then |es| else max
  }

  /** `kept` is the entries of `es` at the places `at`, in their old order. */
  ghost predicate Picks(es: seq<Entry>, at: seq<nat>, kept: seq<Entry>) {
    && |at| == |kept| && (forall i, j | 0 <= i < j < |at| :: at[i] < at[j])
    && (forall i | 0 <= i < |at| :: at[i] < |es| && kept[i] == es[at[i]])
  }

  /** `kept` is `es` without the entries whose ID is in `ids`: those and no others are gone, the rest is in order. */
  ghost predicate OnlyDrops(es: seq<Entry>, ids: set<string>, kept: seq<Entry>) {
    exists at: seq<nat> ::
      Picks(es, at, kept) && forall k: nat {:trigger es[k]} | k < |es| :: k in at <==> es[k].tx.id !in ids
  }

  /** The operations of the mempool that change its entries. */
  datatype Op =
    | AddOp(tx: Tx, now: int)
    | PopOp(max: int)
    | ReturnOp(txs: seq<Tx>, clock: nat -> int)
    | RemoveOp(ids: set<string>)
    | CleanOp(now: int)

  function After(cfg: Config, es: seq<Entry>, op: Op): seq<Entry> {
    match op
    case AddOp(tx, now) => AddTo(cfg, es, tx, now)
    case PopOp(max) => es[PopCount(es, max)..]
    case ReturnOp(txs, clock) => ReturnAll(cfg, es, txs, clock)
    case RemoveOp(ids) => Without(es, ids)
    case CleanOp(now) => Keep(es, LiveAt(now))
  }

  lemma KeepSnoc(es: seq<Entry>, e: Entry, test: Entry -> bool)
    ensures Keep(es + [e], test) == Keep(es, test) + (if test(e) then [e] else [])
  {
    assert (es + [e])[..|es + [e]| - 1] == es;
  }

  lemma TotalSizeSnoc(es: seq<Entry>, e: Entry)
    ensures TotalSize(es + [e]) == TotalSize(es) + e.size
  {
    assert (es + [e])[..|es + [e]| - 1] == es;
  }

  lemma IdsGrow(es: seq<Entry>, e: Entry)
    ensures Ids(es + [e]) == Ids(es) + {e.tx.id}
  {
    assert forall x :: x in es + [e] <==> x in es || x == e;
  }

  lemma {:induction false} KeepMembers(es: seq<Entry>, test: Entry -> bool)
    ensures forall e :: e in Keep(es, test) <==> e in es && test(e)
    ensures |Keep(es, test)| <= |es| && TotalSize(Keep(es, test)) <= TotalSize(es)
    decreases |es|
  {
    if es != [] {
      var init, last := es[..|es| - 1], es[|es| - 1];
      KeepMembers(init, test);
      assert es == init + [last];
      KeepSnoc(init, last, test);
      TotalSizeSnoc(init, last);
      if test(last) {
        TotalSizeSnoc(Keep(init, test), last);
      } else {
        assert Keep(es, test) == Keep(init, test);
      }
    }
  }

  /** What filtering leaves, place by place: exactly the entries that pass, in their old order. */
  lemma {:induction false} KeepPicks(es: seq<Entry>, test: Entry -> bool) returns (at: seq<nat>)
    ensures Picks(es, at, Keep(es, test))
    ensures forall k: nat {:trigger es[k]} | k < |es| :: k in at <==> test(es[k])
    decreases |es|
  {
    hide Keep;
    at := [];
    if es == [] {
      NothingKept(test);
    } else {
      var init, last := es[..|es| - 1], es[|es| - 1];
      assert es == init + [last];
      at := KeepPicks(init, test);
      KeepSnoc(init, last, test);
      at := PicksSnoc(init, last, at, Keep(init, test), test);
    }
  }

  lemma PicksSnoc(es: seq<Entry>, e: Entry, at: seq<nat>, kept: seq<Entry>, test: Entry -> bool)
    returns (more: seq<nat>)
    requires Picks(es, at, kept) && forall k: nat {:trigger es[k]} | k < |es| :: k in at <==> test(es[k])
    ensures Picks(es + [e], more, kept + (if test(e) then [e] else []))
    ensures forall k: nat {:trigger (es + [e])[k]} | k < |es| + 1 :: k in more <==> test((es + [e])[k])
  {
    more := if test(e) then at + [|es|] else at;
    assert test(e) ==> forall k: nat :: k in more <==> k in at || k == |es|;
    assert forall k: nat | k in at :: k < |es|;
    forall k: nat | k < |es| + 1 ensures k in more <==> test((es + [e])[k]) {
      assert k < |es| ==> (es + [e])[k] == es[k];
    }
  }

  lemma NothingKept(test: Entry -> bool)
    ensures Keep([], test) == []
  {}

  lemma WithoutOnlyDrops(es: seq<Entry>, ids: set<string>)
    ensures OnlyDrops(es, ids, Without(es, ids))
  {
    var at := KeepPicks(es, NotIn(ids));
  }

  lemma DistinctSnoc(es: seq<Entry>, e: Entry)
    ensures DistinctIds(es + [e]) <==> DistinctIds(es) && e.tx.id !in Ids(es)
  {
    var all := es + [e];
    if DistinctIds(all) {
      forall i, j | 0 <= i < j < |es| ensures es[i].tx.id != es[j].tx.id {
        assert all[i] == es[i] && all[j] == es[j];
      }
      forall x | x in es ensures x.tx.id != e.tx.id {
        var i :| 0 <= i < |es| && es[i] == x;
        assert all[i] == x && all[|es|] == e;
      }
    }
    if DistinctIds(es) && e.tx.id !in Ids(es) {
      forall i, j | 0 <= i < j < |all| ensures all[i].tx.id != all[j].tx.id {
        assert all[i] == es[i];
        if j < |es| {
          assert all[j] == es[j];
        } else {
          assert es[i] in es;
        }
      }
    }
  }

  lemma {:induction false} KeepDistinct(es: seq<Entry>, test: Entry -> bool)
    requires DistinctIds(es)
    ensures DistinctIds(Keep(es, test))
    decreases |es|
  {
    if es != [] {
      var init, last := es[..|es| - 1], es[|es| - 1];
      assert es == init + [last];
      DistinctSnoc(init, last);
      KeepDistinct(init, test);
      KeepMembers(init, test);
      DistinctSnoc(Keep(init, test), last);
    }
  }

  /** Every addition, accepted or not, leaves a pool whose maps can agree with it. */
  lemma AddKeepsAgreement(cfg: Config, es: seq<Entry>, seen: set<string>, expiry: map<string, int>, bytes: int,
                          tx: Tx, now: int)
    requires Agree(cfg, es, seen, expiry, bytes) && Accepts(cfg, es, tx)
    ensures var e := EntryFor(cfg, tx, now);
            Agree(cfg, es + [e], seen + {tx.id}, expiry[tx.id := e.expiresAt], bytes + e.size)
  {
    hide DistinctIds, TotalSize;
    var e := EntryFor(cfg, tx, now);
    var more := es + [e];
    assert forall x :: x in more <==> x in es || x == e;
    assert Ids(more) == Ids(es) + {tx.id};
    DistinctSnoc(es, e);
    TotalSizeSnoc(es, e);
  }

  /** Filtering entries and dropping the filtered-out IDs from the maps keeps the agreement. */
  lemma KeepKeepsAgreement(cfg: Config, es: seq<Entry>, seen: set<string>, expiry: map<string, int>, bytes: int,
                           test: Entry -> bool, gone: set<string>)
    requires Agree(cfg, es, seen, expiry, bytes)
    requires forall e | e in es :: e.tx.id in gone <==> !test(e)
    ensures var kept := Keep(es, test);
            Agree(cfg, kept, seen - gone, expiry - gone, TotalSize(kept)) && Ids(kept) == Ids(es) - gone
  {
    KeepMembers(es, test);
    KeepDistinct(es, test);
    var kept := Keep(es, test);
    forall id ensures id in Ids(kept) <==> id in Ids(es) && id !in gone {
      if id in Ids(es) && id !in gone {
        var e :| e in es && e.tx.id == id;
        assert e in kept;
      }
    }
  }

  /** Popping is first come, first served: `m` and then `n` transactions are the first `m + n`, and popping at least
      the pool's length empties it. */
  lemma PopsInTurn(cfg: Config, es: seq<Entry>, m: nat, n: nat)
    ensures After(cfg, After(cfg, es, PopOp(m)), PopOp(n)) == After(cfg, es, PopOp(m + n))
    ensures m >= |es| ==> After(cfg, es, PopOp(m)) == []
    ensures m <= |es| ==> es == es[..m] + After(cfg, es, PopOp(m))
  {}

  /** An accepted transaction outlasts a cleaning exactly up to its time to live. */
  lemma LivesForTtl(cfg: Config, es: seq<Entry>, tx: Tx, now: int, later: int)
    requires Accepts(cfg, es, tx)
    ensures tx.id in Ids(After(cfg, After(cfg, es, AddOp(tx, now)), CleanOp(later))) <==> later <= now + cfg.ttl
  {
    var more := AddTo(cfg, es, tx, now);
    KeepMembers(more, LiveAt(later));
    assert EntryFor(cfg, tx, now) in more;
    assert forall e | e in more :: e in es || e == EntryFor(cfg, tx, now);
    if later <= now + cfg.ttl {
      assert EntryFor(cfg, tx, now) in Keep(more, LiveAt(later));
    }
  }

  // ---------- expiry order ----------

  /** Entries in order of expiry, none expiring later than `limit`. */
  ghost predicate ExpirySorted(es: seq<Entry>, limit: int) {
    && (forall i, j | 0 <= i < j < |es| :: es[i].expiresAt <= es[j].expiresAt)
    && (forall e | e in es :: e.expiresAt <= limit)
  }

  lemma AddKeepsExpiryOrder(cfg: Config, es: seq<Entry>, tx: Tx, before: int, now: int)
    requires before <= now && ExpirySorted(es, before + cfg.ttl)
    ensures ExpirySorted(AddTo(cfg, es, tx, now), now + cfg.ttl)
  {
    forall i | 0 <= i < |es| ensures es[i].expiresAt <= now + cfg.ttl {
      assert es[i] in es;
    }
  }

  lemma {:induction false} ReturnKeepsExpiryOrder(cfg: Config, es: seq<Entry>, txs: seq<Tx>, clock: nat -> int,
                                                  before: int, now: int)
    requires ExpirySorted(es, before + cfg.ttl) && before <= now
    requires forall i | 0 <= i < |txs| :: before <= clock(i) <= now
    requires forall i, j | 0 <= i < j < |txs| :: clock(i) <= clock(j)
    ensures ExpirySorted(ReturnAll(cfg, es, txs, clock), now + cfg.ttl)
    decreases |txs|
  {
    if txs == [] {
      LaterLimit(es, before + cfg.ttl, now + cfg.ttl);
    } else {
      var k := |txs| - 1;
      ReturnKeepsExpiryOrder(cfg, es, txs[..k], clock, before, clock(k));
      AddKeepsExpiryOrder(cfg, ReturnAll(cfg, es, txs[..k], clock), txs[k], clock(k), clock(k));
      LaterLimit(ReturnAll(cfg, es, txs, clock), clock(k) + cfg.ttl, now + cfg.ttl);
    }
  }

  lemma LaterLimit(es: seq<Entry>, x: int, y: int)
    requires ExpirySorted(es, x) && x <= y
    ensures ExpirySorted(es, y)
  {}

  lemma SuffixSorted(es: seq<Entry>, k: nat, limit: int)
    requires ExpirySorted(es, limit) && k <= |es|
    ensures ExpirySorted(es[k..], limit)
  {
    forall e | e in es[k..] ensures e in es {
      var i :| 0 <= i < |es[k..]| && es[k..][i] == e;
      assert es[k + i] == e;
    }
  }

  lemma InitSorted(es: seq<Entry>, limit: int)
    requires es != [] && ExpirySorted(es, limit)
    ensures var last := es[|es| - 1]; ExpirySorted(es[..|es| - 1], last.expiresAt) && last.expiresAt <= limit
  {
    var init, last := es[..|es| - 1], es[|es| - 1];
    assert last in es;
    forall e | e in init ensures e.expiresAt <= last.expiresAt {
      var i :| 0 <= i < |init| && init[i] == e;
      assert es[i] == e;
    }
  }

  lemma {:induction false} KeepsExpiryOrder(es: seq<Entry>, test: Entry -> bool, limit: int)
    requires ExpirySorted(es, limit)
    ensures ExpirySorted(Keep(es, test), limit)
    decreases |es|
  {
    if es != [] {
      var init, last := es[..|es| - 1], es[|es| - 1];
      InitSorted(es, limit);
      KeepsExpiryOrder(init, test, last.expiresAt);
      var kept := Keep(init, test);
      forall i | 0 <= i < |kept| ensures kept[i].expiresAt <= last.expiresAt {
        assert kept[i] in kept;
      }
    }
  }

  /** Over an expiry-ordered pool, cleaning removes exactly a prefix. */
  lemma {:induction false} CleaningRemovesPrefix(es: seq<Entry>, limit: int, now: int) returns (k: nat)
    requires ExpirySorted(es, limit)
    ensures k <= |es| && Keep(es, LiveAt(now)) == es[k..]
    ensures forall i | 0 <= i < |es| :: es[i].expiresAt < now <==> i < k
    decreases |es|
  {
    hide ExpirySorted;
    if es == [] {
      k := 0;
    } else {
      var init, last := es[..|es| - 1], es[|es| - 1];
      InitSorted(es, limit);
      k := CleaningRemovesPrefix(init, last.expiresAt, now);
      NoneLater(init, last.expiresAt);
      k := PrefixGrows(init, last, now, k);
      assert es == init + [last];
    }
  }

  lemma NoneLater(es: seq<Entry>, limit: int)
    requires ExpirySorted(es, limit)
    ensures forall i | 0 <= i < |es| :: es[i].expiresAt <= limit
  {
    forall i | 0 <= i < |es| ensures es[i].expiresAt <= limit {
      assert es[i] in es;
    }
  }

  lemma PrefixGrows(init: seq<Entry>, last: Entry, now: int, j: nat) returns (k: nat)
    requires j <= |init| && Keep(init, LiveAt(now)) == init[j..]
    requires forall i | 0 <= i < |init| :: init[i].expiresAt <= last.expiresAt && (init[i].expiresAt < now <==> i < j)
    ensures var es := init + [last];
            && k <= |es| && Keep(es, LiveAt(now)) == es[k..]
            && forall i | 0 <= i < |es| :: es[i].expiresAt < now <==> i < k
  {
    hide Keep;
    var es := init + [last];
    KeepSnoc(init, last, LiveAt(now));
    if last.expiresAt < now {
      assert |init| == 0 || init[|init| - 1].expiresAt < now;
      assert init[j..] == [] && es[|es|..] == [];
      k := |es|;
    } else {
      assert init[j..] + [last] == es[j..];
      k := j;
    }
  }

  // ---------- whole lifetimes ----------

  /** The entries of a pool that started empty, after some operations. */
  function Lived(cfg: Config, ops: seq<Op>): seq<Entry>
    decreases |ops|
  {
    if ops == [] then [] else After(cfg, Lived(cfg, ops[..|ops| - 1]), ops[|ops| - 1])
  }

  /** The clock readings one operation takes. */
  function Readings(op: Op): seq<int> {
    match op
    case AddOp(_, now) => [now]
    case ReturnOp(txs, clock) => seq(|txs|, i requires 0 <= i => clock(i))
    case CleanOp(now) => [now]
    case _ => []
  }

  function AllReadings(ops: seq<Op>): seq<int>
    decreases |ops|
  {
    if ops == [] then [] else AllReadings(ops[..|ops| - 1]) + Readings(ops[|ops| - 1])
  }

  /** The clock never runs backwards, and reads at most `now` so far. */
  ghost predicate Monotone(rs: seq<int>, now: int) {
    && (forall i, j | 0 <= i < j < |rs| :: rs[i] <= rs[j])
    && (forall i | 0 <= i < |rs| :: rs[i] <= now)
  }

  lemma MonotoneSplits(xs: seq<int>, ys: seq<int>, now: int)
    requires Monotone(xs + ys, now)
    ensures Monotone(ys, now) && Monotone(xs, if ys == [] then now else ys[0])
    ensures forall i | 0 <= i < |ys| :: (if ys == [] then now else ys[0]) <= ys[i] <= now
  {
    var all := xs + ys;
    forall i, j | 0 <= i < j < |ys| ensures ys[i] <= ys[j] {
      assert all[|xs| + i] <= all[|xs| + j];
    }
    forall i | 0 <= i < |ys| ensures ys[i] <= now && ys[0] <= ys[i] {
      assert all[|xs| + i] <= now && all[|xs|] <= all[|xs| + i];
    }
    forall i, j | 0 <= i < j < |xs| ensures xs[i] <= xs[j] {
      assert all[i] <= all[j];
    }
    forall i | 0 <= i < |xs| ensures xs[i] <= (if ys == [] then now else ys[0]) {
      assert all[i] == xs[i];
      assert ys != [] ==> all[i] <= all[|xs|];
    }
  }

  /** In every lifetime the entries stay in order of expiry. */
  lemma {:induction false} LifetimeKeepsExpiryOrder(cfg: Config, ops: seq<Op>, now: int)
    requires Monotone(AllReadings(ops), now)
    ensures ExpirySorted(Lived(cfg, ops), now + cfg.ttl)
    decreases |ops|
  {
    if ops != [] {
      var init, last := ops[..|ops| - 1], ops[|ops| - 1];
      var rs := Readings(last);
      var first := if rs == [] then now else rs[0];
      MonotoneSplits(AllReadings(init), rs, now);
      LifetimeKeepsExpiryOrder(cfg, init, first);
      OpKeepsExpiryOrder(cfg, Lived(cfg, init), last, first, now);
    }
  }

  lemma OpKeepsExpiryOrder(cfg: Config, es: seq<Entry>, op: Op, first: int, now: int)
    requires ExpirySorted(es, first + cfg.ttl) && first <= now && Monotone(Readings(op), now)
    requires forall i | 0 <= i < |Readings(op)| :: first <= Readings(op)[i] <= now
    ensures ExpirySorted(After(cfg, es, op), now + cfg.ttl)
  {
    hide ExpirySorted;
    LaterLimit(es, first + cfg.ttl, now + cfg.ttl);
    match op
    case AddOp(tx, at) =>
      assert Readings(op)[0] == at;
      AddKeepsExpiryOrder(cfg, es, tx, first, at);
      LaterLimit(AddTo(cfg, es, tx, at), at + cfg.ttl, now + cfg.ttl);
    case PopOp(max) => SuffixSorted(es, PopCount(es, max), now + cfg.ttl);
    case ReturnOp(txs, clock) =>
      forall i | 0 <= i < |txs| ensures first <= clock(i) <= now {
        assert Readings(op)[i] == clock(i);
      }
      forall i, j | 0 <= i < j < |txs| ensures clock(i) <= clock(j) {
        assert Readings(op)[i] <= Readings(op)[j];
      }
      ReturnKeepsExpiryOrder(cfg, es, txs, clock, first, now);
    case RemoveOp(ids) => KeepsExpiryOrder(es, NotIn(ids), now + cfg.ttl);
    case CleanOp(at) => KeepsExpiryOrder(es, LiveAt(at), now + cfg.ttl);
  }

  /** So under a clock that never runs backwards every cleaning, whatever operations came before, removes
      exactly a prefix: the entries that have expired. */
  lemma EveryCleaningRemovesPrefix(cfg: Config, ops: seq<Op>, now: int) returns (k: nat)
    requires Monotone(AllReadings(ops + [CleanOp(now)]), now)
    ensures var es := Lived(cfg, ops);
            && k <= |es| && Lived(cfg, ops + [CleanOp(now)]) == es[k..]
            && forall i | 0 <= i < |es| :: es[i].expiresAt < now <==> i < k
  {
    var all := ops + [CleanOp(now)];
    assert all[..|all| - 1] == ops;
    MonotoneSplits(AllReadings(ops), [now], now);
    LifetimeKeepsExpiryOrder(cfg, ops, now);
    k := CleaningRemovesPrefix(Lived(cfg, ops), now + cfg.ttl, now);
  }
}
