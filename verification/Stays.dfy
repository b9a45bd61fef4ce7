/** How often one block is asked for. A stay is the time a hash spends in flight; whatever else the syncer does
    meanwhile, the hash is sent at most as many times as the retry limit allows. */
module Stays {
  import opened Types
  import opened Window
  import opened Syncer

  /** What a step of the syncer does to its queues and window. Queueing covers every change of the queues
      alone; a header result is a queueing followed by a dispatch. */
  datatype Move =
    | Dispatch(c: Context, sent: seq<Hash>)
    | Timeouts(best: string, now: int, failed: bool)
    | Arrival(h: Hash)
    | DropSync
    | Queueing

  ghost predicate Moves(cfg: Config, zero: Hash, s: State, e: Move, t: State) {
    match e
    case Dispatch(c, sent) => c.cfg == cfg && Dispatched(c, zero, s, t, sent)
    case Timeouts(best, now, failed) =>
      var ticked := s.(inflight := Ticked(cfg, best, now, s.inflight));
      t == if failed then WithoutSync(ticked) else ticked
    case Arrival(h) => t == s.(inflight := s.inflight - {h})
    case DropSync => t == WithoutSync(s)
    case Queueing => t.inflight == s.inflight
  }

  /** The hashes a round of timeouts sends again. */
  ghost function ResentHashes(cfg: Config, best: string, now: int, inflight: map<Hash, Request>): set<Hash> {
    set h | h in inflight && Resent(cfg, best, now, inflight[h])
  }

  /** Every hash carried by the messages a step sends, with repeats. */
  ghost function SentBy(cfg: Config, s: State, e: Move): multiset<Hash> {
    match e
    case Dispatch(_, sent) => multiset(sent)
    case Timeouts(best, now, _) => multiset(ResentHashes(cfg, best, now, s.inflight))
    case _ => multiset{}
  }

  /** The messages of a round of timeouts carry exactly these, each once; those of a dispatch carry exactly
      `sent`, which is what `Carries` says. */
  lemma ResendsCarry(singles: seq<Single>, batches: seq<Batch>, cfg: Config, best: string, now: int,
                     was: map<Hash, Request>)
    requires Resends(singles, batches, cfg, best, now, was)
    ensures multiset(SingleHashes(singles)) + multiset(BatchHashes(batches))
            == multiset(ResentHashes(cfg, best, now, was))
  {
    hide Resent, SingleHashes, BatchHashes;
    var xs, ys := SingleHashes(singles), BatchHashes(batches);
    forall h ensures (multiset(xs) + multiset(ys))[h] == multiset(ResentHashes(cfg, best, now, was))[h] {
      CountDistinct(xs, h);
      CountDistinct(ys, h);
    }
  }

  /** States passed through while `h` is in flight: sent for in the first step, in flight ever since, and
      perhaps gone in the last state. */
  ghost predicate Stay(cfg: Config, zero: Hash, ss: seq<State>, es: seq<Move>, h: Hash) {
    && es != [] && |ss| == |es| + 1
    && (forall i | 0 <= i < |es| :: Moves(cfg, zero, ss[i], es[i], ss[i + 1]))
    && h !in ss[0].inflight && (forall i | 0 < i < |es| :: h in ss[i].inflight)
  }

  /** How often `h` is sent over the first `n` steps. */
  ghost function TimesSent(cfg: Config, ss: seq<State>, es: seq<Move>, h: Hash, n: nat): nat
    requires n <= |es| <= |ss|
  {
    if n == 0 then 0 else TimesSent(cfg, ss, es, h, n - 1) + SentBy(cfg, ss[n - 1], es[n - 1])[h]
  }

  /** A round of timeouts sends a request again exactly when it is due, has attempts left, and another node to go to. */
  lemma RetriesAreSent(cfg: Config, s: State, best: string, now: int, failed: bool, h: Hash)
    ensures SentBy(cfg, s, Timeouts(best, now, failed))[h]
            == if h in s.inflight && s.inflight[h].deadline <= now && s.inflight[h].attempts < cfg.retryLimit
                  && (if best == "" then s.inflight[h].peer else best) !in {"", cfg.nodeId} then 1 else 0
  {}

  /** One step: attempts cover every message, and stay within the limit. */
  lemma MoveCounts(cfg: Config, zero: Hash, s: State, e: Move, t: State, h: Hash)
    requires Moves(cfg, zero, s, e, t)
    ensures h !in s.inflight && h in t.inflight ==>
              SentBy(cfg, s, e)[h] == 1 && t.inflight[h].attempts == 1 <= cfg.retryLimit
    ensures h !in s.inflight && h !in t.inflight ==> SentBy(cfg, s, e)[h] == 0
    ensures h in s.inflight && h in t.inflight ==>
              s.inflight[h].attempts + SentBy(cfg, s, e)[h] <= t.inflight[h].attempts
              && (s.inflight[h].attempts <= cfg.retryLimit ==> t.inflight[h].attempts <= cfg.retryLimit)
    ensures h in s.inflight && h !in t.inflight && s.inflight[h].attempts <= cfg.retryLimit ==>
              s.inflight[h].attempts + SentBy(cfg, s, e)[h] <= cfg.retryLimit
  {
    hide DrainedAll, AllAccounted, InPriorityOrder, LeftQueues;
    match e
    case Dispatch(c, sent) => CountDistinct(sent, h);
    case _ =>
  }

  lemma {:induction false} AttemptsCoverMessages(cfg: Config, zero: Hash, ss: seq<State>, es: seq<Move>, h: Hash,
                                                 n: nat)
    requires Stay(cfg, zero, ss, es, h) && 0 < n <= |es| && h in ss[n].inflight
    ensures TimesSent(cfg, ss, es, h, n) <= ss[n].inflight[h].attempts <= cfg.retryLimit
    decreases n
  {
    hide Moves, SentBy;
    MoveCounts(cfg, zero, ss[n - 1], es[n - 1], ss[n], h);
    assert TimesSent(cfg, ss, es, h, 0) == 0;
    if n > 1 {
      AttemptsCoverMessages(cfg, zero, ss, es, h, n - 1);
    }
  }

  /** A hash is sent at most `retryLimit` times per stay, dispatch and retries together. */
  lemma SentWithinLimit(cfg: Config, zero: Hash, ss: seq<State>, es: seq<Move>, h: Hash)
    requires Stay(cfg, zero, ss, es, h)
    ensures TimesSent(cfg, ss, es, h, |es|) <= cfg.retryLimit
  {
    hide Moves, SentBy;
    var n := |es|;
    MoveCounts(cfg, zero, ss[n - 1], es[n - 1], ss[n], h);
    assert TimesSent(cfg, ss, es, h, 0) == 0;
    if h in ss[n].inflight {
      AttemptsCoverMessages(cfg, zero, ss, es, h, n);
    } else if n > 1 {
      AttemptsCoverMessages(cfg, zero, ss, es, h, n - 1);
    }
  }
}
