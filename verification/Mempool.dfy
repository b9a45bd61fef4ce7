/** The mempool: a first-come queue kept as a slice of a backing array, two index maps and a
    running byte count, all updated in place. */
module Mempool {
  import opened Types
  import opened Pool

  class Mempool {
    const cfg: Config
    var buf: array<Entry>
    var lo: nat
    var len: nat
    var seen: set<string>
    var txExpiry: map<string, int>
    var totalBytes: int
    var lastInvBroadcast: map<string, int>

    /** The pending entries: the slice of the backing array in use. */
    ghost function Contents(): seq<Entry>
      reads this, buf
      requires lo + len <= buf.Length
    {
      buf[lo..lo + len]
    }

    ghost predicate Valid()
      reads this, buf
    {
      && lo + len <= buf.Length
      && Agree(cfg, Contents(), seen, txExpiry, totalBytes)
    }

    constructor (c: Config)
      ensures Valid() && Contents() == [] && fresh(buf)
      ensures cfg == Config(if c.maxTxs <= 0 then 5000 else c.maxTxs,
                            if c.maxBytes <= 0 then 10 * 1024 * 1024 else c.maxBytes,
                            if c.ttl <= 0 then 600000 else c.ttl,
                            if c.invCooldown <= 0 then 30000 else c.invCooldown)
    {
      cfg := Config(if c.maxTxs <= 0 then 5000 else c.maxTxs,
                    if c.maxBytes <= 0 then 10 * 1024 * 1024 else c.maxBytes,
                    if c.ttl <= 0 then 600000 else c.ttl,
                    if c.invCooldown <= 0 then 30000 else c.invCooldown);
      buf := new Entry[0];
      lo, len := 0, 0;
      seen, txExpiry, totalBytes, lastInvBroadcast := {}, map[], 0, map[];
    }

    /** Add at the back unless already pooled or over a limit. */
    method Add(tx: Tx, now: int) returns (added: bool)
      requires Valid()
      modifies this, buf
      ensures Valid() && (buf == old(buf) || fresh(buf))
      ensures added <==> Accepts(cfg, old(Contents()), tx)
      ensures Contents() == After(cfg, old(Contents()), AddOp(tx, now))
      // in terms of the entries: the ID is new, there is a place, and the estimated size fits
      ensures added <==> && (forall e | e in old(Contents()) :: e.tx.id != tx.id) && |old(Contents())| < cfg.maxTxs
                         && old(totalBytes) + |tx.id| + |tx.payload| + 108 <= cfg.maxBytes
      ensures Contents() == old(Contents())
                + if added then [Entry(tx, now, now + cfg.ttl, |tx.id| + |tx.payload| + 108)] else []
      ensures lastInvBroadcast == old(lastInvBroadcast)
    {
      hide Agree, TotalSize;
      ghost var es := Contents();
      AgreeFacts(cfg, es, seen, txExpiry, totalBytes);
      if tx.id in seen {
        return false;
      }
      var size := EstimateTxSize(tx);
      if len >= cfg.maxTxs {
        return false;
      }
      if totalBytes + size > cfg.maxBytes {
        return false;
      }
      var entry := EntryFor(cfg, tx, now);
      AddKeepsAgreement(cfg, es, seen, txExpiry, totalBytes, tx, now);
      seen := seen + {tx.id};
      txExpiry := txExpiry[tx.id := entry.expiresAt];
      Append(entry);
      totalBytes := totalBytes + size;
      added := true;
    }

    /** Append to the slice: in place when the backing array has room, else in a larger copy. */
    method Append(e: Entry)
      requires lo + len <= buf.Length
      modifies this`buf, this`lo, this`len, buf
      ensures lo + len <= buf.Length && (buf == old(buf) || fresh(buf))
      ensures Contents() == old(Contents()) + [e]
    {
      if lo + len == buf.Length {
        var old_, from, n := buf, lo, len;
        var bigger := new Entry[2 * len + 1](i requires 0 <= i reads old_ requires from + n <= old_.Length =>
          if i < n then old_[from + i] else e);
        assert bigger[..n] == buf[lo..lo + len];
        buf, lo := bigger, 0;
      } else {
        buf[lo + len] := e;
      }
      len := len + 1;
    }

    /** Take up to `max` transactions off the front. */
    method Pop(max: int) returns (out: seq<Tx>)
      requires Valid()
      modifies this
      ensures Valid() && buf == old(buf)
      ensures Contents() == After(cfg, old(Contents()), PopOp(max))
      ensures var es := old(Contents()); var k := PopCount(es, max);
              |out| == k && forall i | 0 <= i < k :: out[i] == es[i].tx
      // everything, in order, when `max` covers the pool; exactly the first `max` when it does not; else nothing
      ensures max >= |old(Contents())| ==> |out| == |old(Contents())| && Contents() == []
      ensures 0 <= max <= |old(Contents())| ==> |out| == max && Contents() == old(Contents())[max..]
      ensures max <= 0 ==> out == [] && Contents() == old(Contents())
      ensures forall i | 0 <= i < |out| :: i < |old(Contents())| && out[i] == old(Contents())[i].tx
      ensures lastInvBroadcast == old(lastInvBroadcast) - TxIds(out)
    {
      hide Agree, TotalSize, Ids;
      if max <= 0 || len == 0 {
        assert old(lastInvBroadcast) - TxIds([]) == old(lastInvBroadcast);
        return [];
      }
      ghost var es := Contents();
      var k := if max > len then len else max;
      out := ForgetFront(k, es);
      lo, len := lo + k, len - k;
      assert Contents() == es[k..];
      if len == 0 {
        AgreeFacts(cfg, es[k..], seen, txExpiry, totalBytes);
        EmptyPool(LiveAt(0));
        totalBytes := 0;
      }
    }

    /** Read the first `k` transactions and drop them from the maps and the byte count. */
    method ForgetFront(k: nat, ghost es: seq<Entry>) returns (out: seq<Tx>)
      requires Valid() && k <= len && es == Contents()
      modifies this`seen, this`txExpiry, this`totalBytes, this`lastInvBroadcast
      ensures Agree(cfg, es[k..], seen, txExpiry, totalBytes)
      ensures |out| == k && forall j | 0 <= j < k :: out[j] == es[j].tx
      ensures lastInvBroadcast == old(lastInvBroadcast) - TxIds(out)
    {
      hide Agree, TotalSize, Ids, DistinctIds;
      out := [];
      assert es[0..] == es;
      for i := 0 to k
        invariant |out| == i && forall j | 0 <= j < i :: out[j] == es[j].tx
        invariant Agree(cfg, es[i..], seen, txExpiry, totalBytes)
        invariant lastInvBroadcast == old(lastInvBroadcast) - TxIds(out)
      {
        var entry := buf[lo + i];
        assert entry == es[i];
        DropNext(cfg, es, i, seen, txExpiry, totalBytes);
        TxIdsSnoc(out, entry.tx);
        out := out + [entry.tx];
        seen := seen - {entry.tx.id};
        txExpiry := txExpiry - {entry.tx.id};
        lastInvBroadcast := lastInvBroadcast - {entry.tx.id};
        totalBytes := totalBytes - entry.size;
      }
    }

    /** Add back the transactions of a block that left the main chain, each at its own clock reading. */
    method Return(txs: seq<Tx>, clock: nat -> int)
      requires Valid()
      modifies this, buf
      ensures Valid() && (buf == old(buf) || fresh(buf))
      ensures Contents() == After(cfg, old(Contents()), ReturnOp(txs, clock))
      ensures lastInvBroadcast == old(lastInvBroadcast)
    {
      hide Agree, TotalSize, Accepts, AddTo;
      ghost var es := Contents();
      for i := 0 to |txs|
        invariant Valid() && (buf == old(buf) || fresh(buf))
        invariant Contents() == ReturnAll(cfg, es, txs[..i], clock)
        invariant lastInvBroadcast == old(lastInvBroadcast)
      {
        var added := Add(txs[i], clock(i));
        assert txs[..i + 1][..i] == txs[..i];
      }
      assert txs[..|txs|] == txs;
    }

    method WriteBack(at: nat, e: Entry)
      requires at < buf.Length
      modifies buf
      ensures buf[..] == old(buf[..])[at := e]
    {
      buf[at] := e;
    }

    /** Remove the given IDs by compacting the slice over itself. */
    method RemoveByID(ids: set<string>)
      requires Valid()
      modifies this, buf
      ensures Valid() && buf == old(buf)
      ensures Contents() == After(cfg, old(Contents()), RemoveOp(ids))
      ensures OnlyDrops(old(Contents()), ids, Contents())
      ensures lastInvBroadcast == old(lastInvBroadcast)
    {
      hide Agree, TotalSize, Keep, Ids, Compacted;
      ghost var es, seen0, expiry0, bytes0 := Contents(), seen, txExpiry, totalBytes;
      WithoutOnlyDrops(es, ids);
      if ids == {} || len == 0 {
        KeepAll(es, NotIn(ids));
        return;
      }
      CompactStart(es, NotIn(ids), ids, seen0, expiry0);
      CompactByID(ids, es, ids);
      CompactEnd(cfg, es, NotIn(ids), ids, Contents(), totalBytes, seen, seen0, txExpiry, expiry0, bytes0);
    }

    /** Remove what has expired by compacting the slice over itself. */
    method CleanExpired(now: int)
      requires Valid()
      modifies this, buf
      ensures Valid() && buf == old(buf)
      ensures Contents() == After(cfg, old(Contents()), CleanOp(now))
      // exactly the entries past their expiry go, the rest stays in order
      ensures exists at: seq<nat> ::
                && Picks(old(Contents()), at, Contents())
                && forall k: nat {:trigger old(Contents())[k]} | k < |old(Contents())| ::
                     k in at <==> now <= old(Contents())[k].expiresAt
      ensures lastInvBroadcast
              == old(lastInvBroadcast) - set e | e in old(Contents()) && e.expiresAt < now :: e.tx.id
    {
      hide Agree, TotalSize, Keep, Ids, Compacted;
      ghost var es, seen0, expiry0, bytes0 := Contents(), seen, txExpiry, totalBytes;
      ghost var gone := Ids(Keep(es, Expired(now)));
      ghost var at := KeepPicks(es, LiveAt(now));
      AgreeFacts(cfg, es, seen, txExpiry, totalBytes);
      ExpiredIds(es, now);
      CompactStart(es, LiveAt(now), gone, seen0, expiry0);
      CompactLive(now, es, gone);
      ExpiredAre(es, now);
      CompactEnd(cfg, es, LiveAt(now), gone, Contents(), totalBytes, seen, seen0, txExpiry, expiry0, bytes0);
    }

    /** The compaction loop of RemoveByID. The write index never passes the read index, so every
        entry is read before it can be overwritten. */
    method CompactByID(ids: set<string>, ghost es: seq<Entry>, ghost gone: set<string>)
      requires lo + len <= buf.Length && es == Contents() && gone == ids
      requires Compacted(es, 0, NotIn(ids), gone, [], 0, seen, seen, txExpiry, txExpiry)
      modifies this`seen, this`txExpiry, this`totalBytes, this`len, buf
      ensures lo + len <= buf.Length
      ensures Compacted(es, |es|, NotIn(ids), gone, Contents(), totalBytes, seen, old(seen), txExpiry, old(txExpiry))
    {
      hide Compacted, Window, NotIn, LiveAt;
      var w := 0;
      totalBytes := 0;
      ghost var kept: seq<Entry> := [];
      assert buf[..][lo..lo + len] == es;
      WindowStart(buf[..], lo, es);
      for i := 0 to len
        invariant len == old(len) && Window(buf[..], lo, w, i, kept, es)
        invariant Compacted(es, i, NotIn(ids), gone, kept, totalBytes, seen, old(seen), txExpiry, old(txExpiry))
      {
        w, kept := CompactByIDStep(ids, i, w, es, gone, kept, old(seen), old(txExpiry));
      }
      WindowEnd(buf[..], lo, w, kept, es);
      len := w;
      assert Contents() == buf[..][lo..lo + w];
    }

    method CompactByIDStep(ids: set<string>, i: nat, w: nat, ghost es: seq<Entry>, ghost gone: set<string>,
                           ghost kept: seq<Entry>,
                       ghost seen0: set<string>, ghost expiry0: map<string, int>)
      returns (w': nat, ghost kept': seq<Entry>)
      requires i < |es| && Window(buf[..], lo, w, i, kept, es) && gone == ids
      requires Compacted(es, i, NotIn(ids), gone, kept, totalBytes, seen, seen0, txExpiry, expiry0)
      modifies this`seen, this`txExpiry, this`totalBytes, buf
      ensures Window(buf[..], lo, w', i + 1, kept', es)
      ensures Compacted(es, i + 1, NotIn(ids), gone, kept', totalBytes, seen, seen0, txExpiry, expiry0)
    {
      hide Compacted, Window, NotIn, LiveAt;
      WindowNext(buf[..], lo, w, i, kept, es);
      CompactNext(es, i, NotIn(ids), gone, kept, totalBytes, seen, seen0, txExpiry, expiry0);
      var entry := buf[lo + i];
      assert entry == buf[..][lo + i] == es[i];
      if entry.tx.id in ids {
        w', kept' := w, kept;
        seen := seen - {entry.tx.id};
        txExpiry := txExpiry - {entry.tx.id};
      } else {
        WriteBack(lo + w, entry);
        w', kept' := w + 1, kept + [entry];
        totalBytes := totalBytes + entry.size;
      }
    }

    /** The compaction loop of CleanExpired. */
    method CompactLive(now: int, ghost es: seq<Entry>, ghost gone: set<string>)
      requires lo + len <= buf.Length && es == Contents()
      requires Compacted(es, 0, LiveAt(now), gone, [], 0, seen, seen, txExpiry, txExpiry)
      modifies this`seen, this`txExpiry, this`totalBytes, this`len, this`lastInvBroadcast, buf
      ensures lo + len <= buf.Length
      ensures Compacted(es, |es|, LiveAt(now), gone, Contents(), totalBytes, seen, old(seen), txExpiry, old(txExpiry))
      ensures lastInvBroadcast == old(lastInvBroadcast) - gone * Ids(es)
    {
      hide Compacted, Window, NotIn, LiveAt, Ids;
      assert Ids(es[..0]) == {} by {
        assert es[..0] == [];
        EmptyPool(LiveAt(now));
      }
      assert es[..|es|] == es;
      var w := 0;
      totalBytes := 0;
      ghost var kept: seq<Entry> := [];
      assert buf[..][lo..lo + len] == es;
      WindowStart(buf[..], lo, es);
      for i := 0 to len
        invariant len == old(len) && Window(buf[..], lo, w, i, kept, es)
        invariant Compacted(es, i, LiveAt(now), gone, kept, totalBytes, seen, old(seen), txExpiry, old(txExpiry))
        invariant lastInvBroadcast == old(lastInvBroadcast) - gone * Ids(es[..i])
      {
        GoneGrows(old(lastInvBroadcast), gone, es, i);
        w, kept := CompactLiveStep(now, i, w, es, gone, kept, old(seen), old(txExpiry));
      }
      WindowEnd(buf[..], lo, w, kept, es);
      len := w;
      assert Contents() == buf[..][lo..lo + w];
    }

    method CompactLiveStep(now: int, i: nat, w: nat, ghost es: seq<Entry>, ghost gone: set<string>,
                           ghost kept: seq<Entry>,
                       ghost seen0: set<string>, ghost expiry0: map<string, int>)
      returns (w': nat, ghost kept': seq<Entry>)
      requires i < |es| && Window(buf[..], lo, w, i, kept, es)
      requires Compacted(es, i, LiveAt(now), gone, kept, totalBytes, seen, seen0, txExpiry, expiry0)
      modifies this`seen, this`txExpiry, this`totalBytes, this`lastInvBroadcast, buf
      ensures Window(buf[..], lo, w', i + 1, kept', es)
      ensures Compacted(es, i + 1, LiveAt(now), gone, kept', totalBytes, seen, seen0, txExpiry, expiry0)
      ensures lastInvBroadcast == old(lastInvBroadcast) - gone * {es[i].tx.id}
    {
      hide Compacted, Window, NotIn, LiveAt;
      WindowNext(buf[..], lo, w, i, kept, es);
      CompactNext(es, i, LiveAt(now), gone, kept, totalBytes, seen, seen0, txExpiry, expiry0);
      var entry := buf[lo + i];
      assert entry == buf[..][lo + i] == es[i];
      LiveMeans(entry, now);
      if now > entry.expiresAt {
        w', kept' := w, kept;
        seen := seen - {entry.tx.id};
        txExpiry := txExpiry - {entry.tx.id};
        lastInvBroadcast := lastInvBroadcast - {entry.tx.id};
      } else {
        WriteBack(lo + w, entry);
        w', kept' := w + 1, kept + [entry];
        totalBytes := totalBytes + entry.size;
      }
    }
  }

  lemma AgreeFacts(cfg: Config, es: seq<Entry>, seen: set<string>, expiry: map<string, int>, bytes: int)
    requires Agree(cfg, es, seen, expiry, bytes)
    ensures seen == Ids(es) && expiry.Keys == Ids(es) && DistinctIds(es) && bytes == TotalSize(es)
    ensures forall id :: id in seen <==> exists e :: e in es && e.tx.id == id
  {}

  lemma EmptyPool(test: Entry -> bool)
    ensures TotalSize([]) == 0 && Ids([]) == {} && Keep([], test) == []
  {}

  // ---------- in-place compaction ----------

  /** After reading `i` entries of `es`: `kept` has been written back, counted in `bytes`, and the
      dropped IDs have left the maps. `gone` names the entries that fail the test. */
  ghost predicate Compacted(es: seq<Entry>, i: nat, test: Entry -> bool, gone: set<string>, kept: seq<Entry>,
                            bytes: int, seen: set<string>, seen0: set<string>,
                            expiry: map<string, int>, expiry0: map<string, int>) {
    && i <= |es| && (forall e | e in es :: e.tx.id in gone <==> !test(e))
    && kept == Keep(es[..i], test) && bytes == TotalSize(kept)
    && seen == seen0 - gone * Ids(es[..i]) && expiry == expiry0 - gone * Ids(es[..i])
  }

  /** The backing array halfway: entries written back, then a stale gap, then entries still unread. */
  ghost predicate Window(arr: seq<Entry>, lo: nat, w: nat, i: nat, kept: seq<Entry>, es: seq<Entry>) {
    && w <= i <= |es| && lo + |es| <= |arr| && |kept| == w
    && arr[lo..lo + w] == kept && arr[lo + i..lo + |es|] == es[i..]
  }

  /** The next unread entry is intact, and may be written back at the write index. */
  lemma WindowNext(arr: seq<Entry>, lo: nat, w: nat, i: nat, kept: seq<Entry>, es: seq<Entry>)
    requires i < |es| && Window(arr, lo, w, i, kept, es)
    ensures lo + i < |arr| && lo + w < |arr| && arr[lo + i] == es[i]
    ensures Window(arr, lo, w, i + 1, kept, es)
    ensures Window(arr[lo + w := es[i]], lo, w + 1, i + 1, kept + [es[i]], es)
  {
    var rest := arr[lo + i..lo + |es|];
    assert rest[0] == es[i];
    assert rest[1..] == arr[lo + i + 1..lo + |es|] && es[i..][1..] == es[i + 1..];
    var now := arr[lo + w := es[i]];
    assert now[lo..lo + w + 1] == kept + [es[i]];
    assert now[lo + i + 1..lo + |es|] == arr[lo + i + 1..lo + |es|];
  }

  lemma LiveMeans(e: Entry, now: int)
    ensures LiveAt(now)(e) <==> !(now > e.expiresAt)
  {}

  lemma WindowStart(arr: seq<Entry>, lo: nat, es: seq<Entry>)
    requires lo + |es| <= |arr| && arr[lo..lo + |es|] == es
    ensures Window(arr, lo, 0, 0, [], es)
  {}

  lemma WindowEnd(arr: seq<Entry>, lo: nat, w: nat, kept: seq<Entry>, es: seq<Entry>)
    requires Window(arr, lo, w, |es|, kept, es)
    ensures w <= |es| && lo + w <= |arr| && arr[lo..lo + w] == kept
  {}

  lemma CompactStart(es: seq<Entry>, test: Entry -> bool, gone: set<string>,
                     seen: set<string>, expiry: map<string, int>)
    requires forall e | e in es :: e.tx.id in gone <==> !test(e)
    ensures Compacted(es, 0, test, gone, [], 0, seen, seen, expiry, expiry)
  {
    assert es[..0] == [];
  }

  lemma CompactNext(es: seq<Entry>, i: nat, test: Entry -> bool, gone: set<string>, kept: seq<Entry>,
                    bytes: int, seen: set<string>, seen0: set<string>,
                    expiry: map<string, int>, expiry0: map<string, int>)
    requires i < |es| && Compacted(es, i, test, gone, kept, bytes, seen, seen0, expiry, expiry0)
    ensures es[i].tx.id in gone <==> !test(es[i])
    ensures var e := es[i];
            if e.tx.id !in gone then
              Compacted(es, i + 1, test, gone, kept + [e], bytes + e.size, seen, seen0, expiry, expiry0)
            else Compacted(es, i + 1, test, gone, kept, bytes, seen - {e.tx.id}, seen0, expiry - {e.tx.id}, expiry0)
  {
    var e := es[i];
    assert es[..i + 1] == es[..i] + [e];
    KeepSnoc(es[..i], e, test);
    IdsGrow(es[..i], e);
    TotalSizeSnoc(kept, e);
    if test(e) {
      assert gone * Ids(es[..i + 1]) == gone * Ids(es[..i]);
    } else {
      assert gone * Ids(es[..i + 1]) == gone * Ids(es[..i]) + {e.tx.id};
      assert Keep(es[..i + 1], test) == kept;
    }
  }

  lemma CompactEnd(cfg: Config, es: seq<Entry>, test: Entry -> bool, gone: set<string>, kept: seq<Entry>,
                   bytes: int, seen: set<string>, seen0: set<string>,
                   expiry: map<string, int>, expiry0: map<string, int>, bytes0: int)
    requires Compacted(es, |es|, test, gone, kept, bytes, seen, seen0, expiry, expiry0)
    requires Agree(cfg, es, seen0, expiry0, bytes0)
    ensures kept == Keep(es, test) && Agree(cfg, kept, seen, expiry, bytes)
  {
    assert es[..|es|] == es;
    KeepKeepsAgreement(cfg, es, seen0, expiry0, bytes0, test, gone);
    assert seen == seen0 - gone && expiry == expiry0 - gone;
  }

  lemma {:induction false} KeepAll(es: seq<Entry>, test: Entry -> bool)
    requires forall e | e in es :: test(e)
    ensures Keep(es, test) == es
    decreases |es|
  {
    hide Keep;
    if es == [] {
      EmptyPool(test);
    } else {
      var init, last := es[..|es| - 1], es[|es| - 1];
      assert es == init + [last];
      KeepAll(init, test);
      KeepSnoc(init, last, test);
    }
  }

  lemma ExpiredIds(es: seq<Entry>, now: int)
    requires DistinctIds(es)
    ensures var gone := Ids(Keep(es, Expired(now)));
            forall e | e in es :: e.tx.id in gone <==> !LiveAt(now)(e)
  {
    var dead := Keep(es, Expired(now));
    KeepMembers(es, Expired(now));
    forall e | e in es ensures e.tx.id in Ids(dead) <==> !LiveAt(now)(e) {
      if e.tx.id in Ids(dead) {
        var x :| x in dead && x.tx.id == e.tx.id;
        SameIdSameEntry(es, x, e);
      }
    }
  }

  lemma GoneGrows(m: map<string, int>, gone: set<string>, es: seq<Entry>, i: nat)
    requires i < |es|
    ensures m - gone * Ids(es[..i + 1]) == m - gone * Ids(es[..i]) - gone * {es[i].tx.id}
  {
    assert es[..i + 1] == es[..i] + [es[i]];
    IdsGrow(es[..i], es[i]);
  }

  lemma ExpiredAre(es: seq<Entry>, now: int)
    ensures Ids(Keep(es, Expired(now))) * Ids(es) == set e | e in es && e.expiresAt < now :: e.tx.id
  {
    KeepMembers(es, Expired(now));
  }

  lemma TxIdsSnoc(txs: seq<Tx>, tx: Tx)
    ensures TxIds(txs + [tx]) == TxIds(txs) + {tx.id}
  {
    assert forall x :: x in txs + [tx] <==> x in txs || x == tx;
  }

  lemma SameIdSameEntry(es: seq<Entry>, x: Entry, y: Entry)
    requires DistinctIds(es) && x in es && y in es && x.tx.id == y.tx.id
    ensures x == y
  {
    var i :| 0 <= i < |es| && es[i] == x;
    var j :| 0 <= j < |es| && es[j] == y;
  }

  lemma DropFirst(cfg: Config, es: seq<Entry>, seen: set<string>, expiry: map<string, int>, bytes: int)
    requires es != [] && Agree(cfg, es, seen, expiry, bytes)
    ensures Agree(cfg, es[1..], seen - {es[0].tx.id}, expiry - {es[0].tx.id}, bytes - es[0].size)
  {
    hide TotalSize;
    var rest, id := es[1..], es[0].tx.id;
    TotalSizeFirst(es);
    RestIds(es);
    forall i, j | 0 <= i < j < |rest| ensures rest[i].tx.id != rest[j].tx.id {
      assert es[i + 1] == rest[i] && es[j + 1] == rest[j];
    }
  }

  lemma RestIds(es: seq<Entry>)
    requires es != [] && DistinctIds(es)
    ensures Ids(es[1..]) == Ids(es) - {es[0].tx.id}
  {
    var rest, id := es[1..], es[0].tx.id;
    assert es == [es[0]] + rest;
    forall e | e in rest ensures e.tx.id != id {
      var i :| 0 <= i < |rest| && rest[i] == e;
      assert es[i + 1] == e;
    }
  }

  lemma DropNext(cfg: Config, es: seq<Entry>, i: nat, seen: set<string>, expiry: map<string, int>, bytes: int)
    requires i < |es| && Agree(cfg, es[i..], seen, expiry, bytes)
    ensures Agree(cfg, es[i + 1..], seen - {es[i].tx.id}, expiry - {es[i].tx.id}, bytes - es[i].size)
  {
    hide Agree;
    assert es[i..][1..] == es[i + 1..];
    DropFirst(cfg, es[i..], seen, expiry, bytes);
  }

  lemma {:induction false} TotalSizeFirst(es: seq<Entry>)
    requires es != []
    ensures TotalSize(es) == es[0].size + TotalSize(es[1..])
    decreases |es|
  {
    if |es| > 1 {
      var init := es[..|es| - 1];
      TotalSizeFirst(init);
      assert es[1..][..|es[1..]| - 1] == init[1..];
    }
  }
}
