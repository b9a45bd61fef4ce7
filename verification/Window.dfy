/** The download window as a value: three priority queues with their shadow maps, and the requests
    in flight. States what one dispatch may do, and proves each queue pop keeps to it. */
module Window {
  import opened Types

  datatype Kind = Sync | Inv | Parent

  datatype Request = Request(peer: string, kind: Kind, attempts: nat, deadline: int)

  datatype Queue = Queue(items: seq<Hash>, from: map<Hash, string>) {
    /** Duplicate-free, with exactly the keys of its shadow map. */
    ghost predicate Ok(zero: Hash) {
      && (forall i, j | 0 <= i < j < |items| :: items[i] != items[j])
      && (forall h :: h in items <==> h in from)
      && zero !in items
    }

    function Tail(): Queue
      requires items != []
    {
      Queue(items[1..], from - {items[0]})
    }

    function Push(h: Hash, peer: string): Queue {
      Queue(items + [h], from[h := peer])
    }
  }

  lemma TailOk(q: Queue, zero: Hash)
    requires q.items != [] && q.Ok(zero)
    ensures q.Tail().Ok(zero) && q.items[0] in q.from
    ensures forall h :: h in q.Tail().items <==> h in q.items && h != q.items[0]
  {
    var t := q.Tail();
    assert q.items == [q.items[0]] + t.items;
    forall i, j | 0 <= i < j < |t.items| ensures t.items[i] != t.items[j] {
      assert t.items[i] == q.items[i + 1] && t.items[j] == q.items[j + 1];
    }
    forall h ensures h in t.items <==> h in q.items && h != q.items[0] {
      if h in t.items {
        var i :| 0 <= i < |t.items| && t.items[i] == h;
        assert q.items[i + 1] == h;
      }
    }
  }

  lemma PushOk(q: Queue, h: Hash, peer: string, zero: Hash)
    requires q.Ok(zero) && h !in q.from && h != zero
    ensures q.Push(h, peer).Ok(zero)
  {
    forall x ensures x in q.Push(h, peer).items <==> x in q.Push(h, peer).from {}
  }

  datatype Config = Config(
    nodeId: string, maxInflight: nat, batchSize: nat, retryLimit: nat, headerRetryLimit: nat,
    syncTimeout: int, backoff: int)

  datatype State = State(parents: Queue, syncs: Queue, invs: Queue, inflight: map<Hash, Request>)

  /** What one dispatch knows: the best peer, the peer to sync from, the blocks already held, the time. */
  datatype Context = Context(cfg: Config, best: string, syncFrom: string, have: set<Hash>, now: int)

  predicate UsablePeer(cfg: Config, peer: string) { peer != "" && peer != cfg.nodeId }

  /** The peer a single-block request goes to: the announcing one, else the best one. */
  function PeerFor(c: Context, preferred: string): string {
    if preferred == "" then c.best else preferred
  }

  ghost predicate WindowOk(cfg: Config, zero: Hash, s: State) {
    && s.parents.Ok(zero) && s.syncs.Ok(zero) && s.invs.Ok(zero)
    && |s.inflight| <= cfg.maxInflight
    && forall h | h in s.inflight :: 1 <= s.inflight[h].attempts <= cfg.retryLimit
  }

  // ---------- what a dispatch does ----------

  ghost predicate Distinct(hs: seq<Hash>) {
    forall i, j | 0 <= i < j < |hs| :: hs[i] != hs[j]
  }

  lemma {:induction false} CountDistinct(hs: seq<Hash>, h: Hash)
    requires Distinct(hs)
    ensures multiset(hs)[h] == if h in hs then 1 else 0
    decreases |hs|
  {
    if hs != [] {
      var init, last := hs[..|hs| - 1], hs[|hs| - 1];
      assert hs == init + [last];
      CountDistinct(init, h);
    }
  }

  /** A queue only loses items from its front. */
  ghost predicate Drained(was: Queue, now: Queue) {
    && |now.items| <= |was.items| && now.items == was.items[|was.items| - |now.items|..]
    && (forall h | h in now.from :: h in was.from && now.from[h] == was.from[h])
  }

  function QueueOf(s: State, k: Kind): Queue {
    match k case Parent => s.parents case Sync => s.syncs case Inv => s.invs
  }

  /** A request a dispatch may create: first attempt, deadline one timeout ahead, a usable peer chosen
      as its kind prescribes, for a queued block not yet held. */
  ghost predicate Launched(c: Context, was: State, h: Hash, r: Request) {
    && r.attempts == 1 && r.deadline == c.now + c.cfg.syncTimeout && UsablePeer(c.cfg, r.peer)
    && h !in c.have && h in QueueOf(was, r.kind).from
    && r.peer == (if r.kind.Sync? then c.syncFrom else PeerFor(c, QueueOf(was, r.kind).from[h]))
  }

  /** A hash may leave its queue only by being in flight, held already, or (single requests) without a usable peer. */
  ghost predicate Accounted(c: Context, was: State, now: State, k: Kind, h: Hash) {
    h in QueueOf(was, k).from && h !in QueueOf(now, k).from ==>
      h in now.inflight || h in c.have || (!k.Sync? && !UsablePeer(c.cfg, PeerFor(c, QueueOf(was, k).from[h])))
  }

  ghost predicate DrainedAll(was: State, now: State) {
    Drained(was.parents, now.parents) && Drained(was.syncs, now.syncs) && Drained(was.invs, now.invs)
  }

  /** Old requests are untouched; the new ones are exactly the hashes sent, each sent once. */
  ghost predicate SentExactly(c: Context, was: State, now: State, sent: seq<Hash>) {
    && (forall h | h in was.inflight :: h in now.inflight && now.inflight[h] == was.inflight[h])
    && Distinct(sent) && (forall h :: h in sent <==> h in now.inflight && h !in was.inflight)
    && (forall h | h in sent :: Launched(c, was, h, now.inflight[h]))
  }

  ghost predicate AllAccounted(c: Context, was: State, now: State) {
    forall k: Kind, h: Hash :: Accounted(c, was, now, k, h)
  }

  /** Sync requests go out only with no parent queued, inv requests only with sync drained or peerless too. */
  ghost predicate InPriorityOrder(c: Context, was: State, now: State) {
    forall h | h in now.inflight && h !in was.inflight ::
      && (!now.inflight[h].kind.Parent? ==> now.parents.items == [])
      && (now.inflight[h].kind.Inv? ==> now.syncs.items == [] || !UsablePeer(c.cfg, c.syncFrom))
  }

  /** What was sent is no longer queued for the same purpose. */
  ghost predicate LeftQueues(was: State, now: State) {
    forall h | h in now.inflight && h !in was.inflight :: h !in QueueOf(now, now.inflight[h].kind).from
  }

  /** From `was`, a dispatch has reached `now` having sent requests for exactly `sent`. */
  ghost predicate Dispatched(c: Context, zero: Hash, was: State, now: State, sent: seq<Hash>) {
    && WindowOk(c.cfg, zero, now) && DrainedAll(was, now) && SentExactly(c, was, now, sent)
    && AllAccounted(c, was, now) && InPriorityOrder(c, was, now) && LeftQueues(was, now)
  }

  lemma DispatchedParts(c: Context, zero: Hash, was: State, now: State, sent: seq<Hash>)
    requires Dispatched(c, zero, was, now, sent)
    ensures WindowOk(c.cfg, zero, now) && DrainedAll(was, now) && SentExactly(c, was, now, sent)
    ensures AllAccounted(c, was, now) && LeftQueues(was, now)
  {}

  lemma DispatchStart(c: Context, zero: Hash, was: State)
    requires WindowOk(c.cfg, zero, was)
    ensures Dispatched(c, zero, was, was, [])
  {}

  function WithQueue(s: State, k: Kind, q: Queue): State {
    match k case Parent => s.(parents := q) case Sync => s.(syncs := q) case Inv => s.(invs := q)
  }

  /** The front of queue `k` popped, with nothing launched. */
  function Popped(s: State, k: Kind): State
    requires QueueOf(s, k).items != []
  {
    WithQueue(s, k, QueueOf(s, k).Tail())
  }

  /** The order in which queues may be served. */
  ghost predicate MayServe(c: Context, s: State, k: Kind) {
    && (k.Parent? || s.parents.items == [])
    && (k.Inv? ==> s.syncs.items == [] || !UsablePeer(c.cfg, c.syncFrom))
  }

  lemma DrainedTail(was: Queue, q: Queue, zero: Hash)
    requires Drained(was, q) && q.items != [] && q.Ok(zero)
    ensures Drained(was, q.Tail())
  {
    TailOk(q, zero);
  }

  lemma PopDrains(was: State, s: State, k: Kind, zero: Hash)
    requires DrainedAll(was, s) && QueueOf(s, k).items != [] && QueueOf(s, k).Ok(zero)
    ensures DrainedAll(was, Popped(s, k))
  {
    DrainedTail(QueueOf(was, k), QueueOf(s, k), zero);
  }

  lemma PopKeepsWindow(cfg: Config, zero: Hash, s: State, k: Kind)
    requires WindowOk(cfg, zero, s) && QueueOf(s, k).items != []
    ensures WindowOk(cfg, zero, Popped(s, k)) && QueueOf(s, k).items[0] in QueueOf(s, k).from
  {
    TailOk(QueueOf(s, k), zero);
  }

  lemma PopKeepsOrder(c: Context, was: State, s: State, k: Kind)
    requires InPriorityOrder(c, was, s) && QueueOf(s, k).items != []
    ensures InPriorityOrder(c, was, Popped(s, k))
  {
    forall h | h in s.inflight && h !in was.inflight
      ensures !s.inflight[h].kind.Parent? ==> Popped(s, k).parents.items == []
      ensures s.inflight[h].kind.Inv? ==> Popped(s, k).syncs.items == [] || !UsablePeer(c.cfg, c.syncFrom)
    {}
  }

  /** Dropping the front of a queue: allowed for a hash in flight, held, or without a peer. */
  lemma PopDrops(c: Context, zero: Hash, was: State, s: State, sent: seq<Hash>, k: Kind)
    requires Dispatched(c, zero, was, s, sent) && QueueOf(s, k).items != []
    requires var h := QueueOf(s, k).items[0];
             h in s.inflight || h in c.have
             || (!k.Sync? && h in QueueOf(s, k).from && !UsablePeer(c.cfg, PeerFor(c, QueueOf(s, k).from[h])))
    ensures Dispatched(c, zero, was, Popped(s, k), sent)
  {
    hide Launched, Drained, WindowOk, InPriorityOrder, Accounted, Queue.Ok, Distinct, LeftQueues;
    PopKeepsWindow(c.cfg, zero, s, k);
    QueueIsOk(c.cfg, zero, s, k);
    PopDrains(was, s, k, zero);
    PopKeepsOrder(c, was, s, k);
    PopAccounts(c, was, s, k);
    PopKeepsLeft(was, s, k);
  }

  lemma PopKeepsLeft(was: State, s: State, k: Kind)
    requires LeftQueues(was, s) && QueueOf(s, k).items != []
    ensures LeftQueues(was, Popped(s, k))
  {}

  lemma LaunchKeepsLeft(was: State, s: State, k: Kind, h: Hash, r: Request)
    requires LeftQueues(was, s) && QueueOf(s, k).items != [] && QueueOf(s, k).items[0] == h && r.kind == k
    ensures LeftQueues(was, Launch(Popped(s, k), h, r))
  {
    PopKeepsLeft(was, s, k);
  }

  lemma QueueIsOk(cfg: Config, zero: Hash, s: State, k: Kind)
    requires WindowOk(cfg, zero, s)
    ensures QueueOf(s, k).Ok(zero)
  {}

  lemma PopAccounts(c: Context, was: State, s: State, k: Kind)
    requires AllAccounted(c, was, s) && QueueOf(s, k).items != [] && DrainedAll(was, s)
    requires var h := QueueOf(s, k).items[0];
             h in s.inflight || h in c.have
             || (!k.Sync? && h in QueueOf(s, k).from && !UsablePeer(c.cfg, PeerFor(c, QueueOf(s, k).from[h])))
    ensures AllAccounted(c, was, Popped(s, k))
  {
    var t := Popped(s, k);
    forall j: Kind, h: Hash ensures Accounted(c, was, t, j, h) {
      assert Accounted(c, was, s, j, h);
    }
  }

  function Launch(s: State, h: Hash, r: Request): State {
    s.(inflight := s.inflight[h := r])
  }

  /** Launching the front of a queue the order allows, when the window has room. */
  lemma PopLaunches(c: Context, zero: Hash, was: State, s: State, sent: seq<Hash>, k: Kind, peer: string)
    requires Dispatched(c, zero, was, s, sent) && QueueOf(s, k).items != [] && MayServe(c, s, k)
    requires |s.inflight| < c.cfg.maxInflight && c.cfg.retryLimit >= 1
    requires var h := QueueOf(s, k).items[0];
             h !in s.inflight && h !in c.have && h in QueueOf(s, k).from && UsablePeer(c.cfg, peer)
             && peer == (if k.Sync? then c.syncFrom else PeerFor(c, QueueOf(s, k).from[h]))
    ensures var h := QueueOf(s, k).items[0];
            var r := Request(peer, k, 1, c.now + c.cfg.syncTimeout);
            Dispatched(c, zero, was, Launch(Popped(s, k), h, r), sent + [h])
  {
    hide Launched, Drained, WindowOk, InPriorityOrder, Accounted, Queue.Ok, Distinct, SentExactly, AllAccounted;
    hide LeftQueues;
    var h := QueueOf(s, k).items[0];
    var r := Request(peer, k, 1, c.now + c.cfg.syncTimeout);
    LaunchKeepsWindow(c.cfg, zero, s, k, h, r);
    QueueIsOk(c.cfg, zero, s, k);
    PopDrains(was, s, k, zero);
    LaunchKeepsOrder(c, was, s, k, h, r);
    LaunchAccounts(c, was, s, k, h, r);
    LaunchIsSent(c, was, s, sent, k, h, r);
    LaunchKeepsLeft(was, s, k, h, r);
  }

  lemma LaunchIsSent(c: Context, was: State, s: State, sent: seq<Hash>, k: Kind, h: Hash, r: Request)
    requires SentExactly(c, was, s, sent) && DrainedAll(was, s) && QueueOf(s, k).items != []
    requires h !in s.inflight && h !in c.have && h in QueueOf(s, k).from && UsablePeer(c.cfg, r.peer)
    requires r.attempts == 1 && r.kind == k && r.deadline == c.now + c.cfg.syncTimeout
    requires r.peer == (if k.Sync? then c.syncFrom else PeerFor(c, QueueOf(s, k).from[h]))
    ensures SentExactly(c, was, Launch(Popped(s, k), h, r), sent + [h])
  {
    SentGrows(sent, h);
    assert Drained(QueueOf(was, k), QueueOf(s, k));
    assert Launched(c, was, h, r);
  }

  lemma LaunchKeepsOrder(c: Context, was: State, s: State, k: Kind, h: Hash, r: Request)
    requires InPriorityOrder(c, was, s) && QueueOf(s, k).items != [] && MayServe(c, s, k) && r.kind == k
    ensures InPriorityOrder(c, was, Launch(Popped(s, k), h, r))
  {
    PopKeepsOrder(c, was, s, k);
  }

  lemma SentGrows(sent: seq<Hash>, h: Hash)
    requires Distinct(sent) && h !in sent
    ensures Distinct(sent + [h]) && forall x :: x in sent + [h] <==> x in sent || x == h
  {}

  lemma LaunchKeepsWindow(cfg: Config, zero: Hash, s: State, k: Kind, h: Hash, r: Request)
    requires WindowOk(cfg, zero, s) && QueueOf(s, k).items != [] && QueueOf(s, k).items[0] == h
    requires h !in s.inflight && |s.inflight| < cfg.maxInflight && 1 <= r.attempts <= cfg.retryLimit
    ensures WindowOk(cfg, zero, Launch(Popped(s, k), h, r))
  {
    TailOk(QueueOf(s, k), zero);
  }

  lemma LaunchAccounts(c: Context, was: State, s: State, k: Kind, h: Hash, r: Request)
    requires QueueOf(s, k).items != [] && QueueOf(s, k).items[0] == h
    requires AllAccounted(c, was, s)
    ensures AllAccounted(c, was, Launch(Popped(s, k), h, r))
  {
    forall j: Kind, x: Hash ensures Accounted(c, was, Launch(Popped(s, k), h, r), j, x) {
      assert Accounted(c, was, s, j, x);
    }
  }

  // ---------- timeouts ----------

  predicate Overdue(r: Request, now: int) { r.deadline <= now }

  /** Where a retry goes: the best peer when one is known, else the peer asked before. */
  function RetryPeer(best: string, r: Request): string { if best == "" then r.peer else best }

  function Retried(cfg: Config, best: string, now: int, r: Request): Request {
    r.(peer := RetryPeer(best, r), attempts := r.attempts + 1, deadline := now + cfg.syncTimeout)
  }

  /** The window after one round of timeouts: overdue requests are retried, or dropped once exhausted. */
  function Ticked(cfg: Config, best: string, now: int, inflight: map<Hash, Request>): map<Hash, Request> {
    map h | h in inflight && !(Overdue(inflight[h], now) && inflight[h].attempts >= cfg.retryLimit) ::
      if Overdue(inflight[h], now) then Retried(cfg, best, now, inflight[h]) else inflight[h]
  }

  /** One round of timeouts: when, and which peer is best then. */
  datatype Tick = Tick(now: int, best: string)

  /** The window after any rounds, with no arrivals and no new requests. */
  function TickedAt(cfg: Config, ticks: seq<Tick>, inflight: map<Hash, Request>): map<Hash, Request>
    decreases |ticks|
  {
    if ticks == [] then inflight
    else
      var last := ticks[|ticks| - 1];
      Ticked(cfg, last.best, last.now, TickedAt(cfg, ticks[..|ticks| - 1], inflight))
  }

  /** How many of the rounds found the request for `h` overdue. */
  function Hits(cfg: Config, ticks: seq<Tick>, inflight: map<Hash, Request>, h: Hash): nat
    decreases |ticks|
  {
    if ticks == [] then 0
    else
      var init := ticks[..|ticks| - 1];
      var m := TickedAt(cfg, init, inflight);
      Hits(cfg, init, inflight, h) + (if h in m && Overdue(m[h], ticks[|ticks| - 1].now) then 1 else 0)
  }

  ghost predicate AttemptsOk(cfg: Config, inflight: map<Hash, Request>) {
    forall h | h in inflight :: 1 <= inflight[h].attempts <= cfg.retryLimit
  }

  /** Attempts count exactly the rounds that found the request overdue, whatever their times and peers; the
      request is gone exactly when it has been found overdue once more than it had retries left. */
  lemma {:induction false} AttemptsCountHits(cfg: Config, ticks: seq<Tick>, inflight: map<Hash, Request>, h: Hash)
    requires AttemptsOk(cfg, inflight) && h in inflight
    ensures var after := TickedAt(cfg, ticks, inflight);
            var left, hits := cfg.retryLimit - inflight[h].attempts, Hits(cfg, ticks, inflight, h);
            && hits <= left + 1
            && (h !in after <==> hits == left + 1)
            && (h in after ==> after[h].attempts == inflight[h].attempts + hits && after[h].kind == inflight[h].kind)
    decreases |ticks|
  {
    if ticks != [] {
      AttemptsCountHits(cfg, ticks[..|ticks| - 1], inflight, h);
    }
  }

  // ---------- the sum of remaining attempts ----------

  /** Rounds that must still find a request overdue before it is dropped. */
  function Left(cfg: Config, r: Request): nat {
    if r.attempts <= cfg.retryLimit then cfg.retryLimit + 1 - r.attempts else 0
  }

  ghost function Remaining(cfg: Config, m: map<Hash, Request>): nat
    decreases |m|
  {
    if m == map[] then 0
    else
      var h :| h in m;
      Smaller(m, h);
      Left(cfg, m[h]) + Remaining(cfg, m - {h})
  }

  lemma Smaller(m: map<Hash, Request>, h: Hash)
    requires h in m
    ensures |m - {h}| < |m|
  {
    assert m.Keys == (m - {h}).Keys + {h};
  }

  lemma {:induction false} RemainingWithout(cfg: Config, m: map<Hash, Request>, h: Hash)
    requires h in m
    ensures Remaining(cfg, m) == Left(cfg, m[h]) + Remaining(cfg, m - {h})
    decreases |m|
  {
    var x :| x in m && Remaining(cfg, m) == Left(cfg, m[x]) + Remaining(cfg, m - {x});
    if x != h {
      Smaller(m, x);
      Smaller(m, h);
      RemainingWithout(cfg, m - {x}, h);
      RemainingWithout(cfg, m - {h}, x);
      assert m - {x} - {h} == m - {h} - {x};
    }
  }

  function Due(m: map<Hash, Request>, now: int): set<Hash> {
    set h | h in m && Overdue(m[h], now)
  }

  /** One round lowers the sum by exactly the number of overdue requests. */
  lemma {:induction false} TickLowersRemaining(cfg: Config, best: string, now: int, m: map<Hash, Request>)
    requires AttemptsOk(cfg, m)
    ensures Remaining(cfg, Ticked(cfg, best, now, m)) + |Due(m, now)| == Remaining(cfg, m)
    decreases |m|
  {
    hide Remaining, Ticked, Due, Left;
    if m == map[] {
      NothingTicks(cfg, best, now);
    } else {
      var h :| h in m;
      Smaller(m, h);
      assert AttemptsOk(cfg, m - {h});
      TickLowersRemaining(cfg, best, now, m - {h});
      RemainingWithout(cfg, m, h);
      TickOne(cfg, best, now, m, h);
      if h in Ticked(cfg, best, now, m) {
        RemainingWithout(cfg, Ticked(cfg, best, now, m), h);
      }
    }
  }

  lemma NothingTicks(cfg: Config, best: string, now: int)
    ensures Ticked(cfg, best, now, map[]) == map[] && Due(map[], now) == {}
    ensures Remaining(cfg, map[]) == 0
  {}

  /** What one round does to one request, beside what it does to the rest. */
  lemma TickOne(cfg: Config, best: string, now: int, m: map<Hash, Request>, h: Hash)
    requires AttemptsOk(cfg, m) && h in m
    ensures var after := Ticked(cfg, best, now, m);
            && after - {h} == Ticked(cfg, best, now, m - {h})
            && |Due(m, now)| == |Due(m - {h}, now)| + (if Overdue(m[h], now) then 1 else 0)
            && (if h in after then Left(cfg, after[h]) + (if Overdue(m[h], now) then 1 else 0) == Left(cfg, m[h])
                else after - {h} == after && Overdue(m[h], now) && Left(cfg, m[h]) == 1)
  {
    var after := Ticked(cfg, best, now, m);
    assert after - {h} == Ticked(cfg, best, now, m - {h});
    assert Due(m, now) == Due(m - {h}, now) + (if Overdue(m[h], now) then {h} else {});
    if h !in after {
      assert after - {h} == after;
    }
  }

  /** Overdue requests found over all rounds. */
  function TotalHits(cfg: Config, ticks: seq<Tick>, m: map<Hash, Request>): nat
    decreases |ticks|
  {
    if ticks == [] then 0
    else
      var init := ticks[..|ticks| - 1];
      TotalHits(cfg, init, m) + |Due(TickedAt(cfg, init, m), ticks[|ticks| - 1].now)|
  }

  lemma TickedAttemptsOk(cfg: Config, best: string, now: int, m: map<Hash, Request>)
    requires AttemptsOk(cfg, m)
    ensures AttemptsOk(cfg, Ticked(cfg, best, now, m))
  {}

  /** The sum of remaining attempts is a measure: every overdue request found takes one off, and the window is
      empty exactly when all are used up. */
  lemma {:induction false} HitsUseUpRemaining(cfg: Config, ticks: seq<Tick>, m: map<Hash, Request>)
    requires AttemptsOk(cfg, m)
    ensures var after := TickedAt(cfg, ticks, m);
            && AttemptsOk(cfg, after)
            && Remaining(cfg, after) + TotalHits(cfg, ticks, m) == Remaining(cfg, m)
            && (after == map[] <==> TotalHits(cfg, ticks, m) == Remaining(cfg, m))
    decreases |ticks|
  {
    hide Remaining, Due, Ticked;
    if ticks != [] {
      var init, last := ticks[..|ticks| - 1], ticks[|ticks| - 1];
      HitsUseUpRemaining(cfg, init, m);
      TickLowersRemaining(cfg, last.best, last.now, TickedAt(cfg, init, m));
      TickedAttemptsOk(cfg, last.best, last.now, TickedAt(cfg, init, m));
    }
    EmptyIffNoneLeft(cfg, TickedAt(cfg, ticks, m));
  }

  lemma EmptyIffNoneLeft(cfg: Config, m: map<Hash, Request>)
    requires AttemptsOk(cfg, m)
    ensures m == map[] <==> Remaining(cfg, m) == 0
  {}

  // ---------- rounds that go on long enough ----------

  /** Consecutive rounds are at most `gap` apart. */
  ghost predicate GapsWithin(ticks: seq<Tick>, gap: nat) {
    forall i | 0 < i < |ticks| :: ticks[i].now <= ticks[i - 1].now + gap
  }

  /** The latest a request can be due after so many hits. */
  function LatestDue(start: int, hits: nat, unit: int): int { start + hits * unit }

  lemma OneHitLater(start: int, hits: nat, unit: int)
    ensures LatestDue(start, hits + 1, unit) == LatestDue(start, hits, unit) + unit
            && LatestDue(start, 0, unit) == start
  {
    assert (hits + 1) * unit == hits * unit + unit;
  }

  /** A request still in flight after some rounds is due later than the last of them, and its deadline has
      moved on by at most a timeout and a gap per hit. */
  lemma {:induction false} DeadlineBound(cfg: Config, ticks: seq<Tick>, m: map<Hash, Request>, h: Hash, start: int,
                                         gap: nat)
    requires cfg.syncTimeout > 0 && h in m && m[h].deadline <= start && GapsWithin(ticks, gap)
    requires ticks != [] ==> ticks[0].now <= start
    ensures var after := TickedAt(cfg, ticks, m);
            h in after ==>
              && after[h].deadline <= LatestDue(start, Hits(cfg, ticks, m, h), cfg.syncTimeout + gap)
              && (ticks != [] ==> ticks[|ticks| - 1].now < after[h].deadline)
    decreases |ticks|
  {
    hide LatestDue, Ticked;
    if ticks == [] {
      OneHitLater(start, 0, cfg.syncTimeout + gap);
    } else {
      var init, last := ticks[..|ticks| - 1], ticks[|ticks| - 1];
      assert GapsWithin(init, gap) by {
        assert forall i | 0 <= i < |init| :: init[i] == ticks[i];
      }
      DeadlineBound(cfg, init, m, h, start, gap);
      OneHitLater(start, Hits(cfg, init, m, h), cfg.syncTimeout + gap);
      TickedRequest(cfg, last, TickedAt(cfg, init, m), h);
      if init != [] {
        assert init[|init| - 1] == ticks[|ticks| - 2];
      }
    }
  }

  lemma TickedRequest(cfg: Config, k: Tick, m: map<Hash, Request>, h: Hash)
    ensures var after := Ticked(cfg, k.best, k.now, m);
            h in after ==>
              && h in m
              && after[h].deadline == (if Overdue(m[h], k.now) then k.now + cfg.syncTimeout else m[h].deadline)
  {}

  /** Bounded retry: with nothing arriving, rounds that go on long enough empty the window. No spacing is
      assumed: `gap` is any bound on the rounds' distances, and rounds may come far more often than timeouts. */
  lemma LongEnoughEmpties(cfg: Config, ticks: seq<Tick>, m: map<Hash, Request>, start: int, gap: nat)
    requires AttemptsOk(cfg, m) && cfg.syncTimeout > 0 && GapsWithin(ticks, gap)
    requires forall h | h in m :: m[h].deadline <= start
    requires ticks != [] && ticks[0].now <= start
    requires ticks[|ticks| - 1].now >= start + (cfg.retryLimit - 1) * (cfg.syncTimeout + gap)
    ensures TickedAt(cfg, ticks, m) == map[]
  {
    hide Hits, TickedAt, LatestDue, GapsWithin;
    forall h ensures h !in TickedAt(cfg, ticks, m) {
      if h in m {
        AttemptsCountHits(cfg, ticks, m, h);
        DeadlineBound(cfg, ticks, m, h, start, gap);
        DueByEnd(start, Hits(cfg, ticks, m, h), cfg.retryLimit - 1, cfg.syncTimeout + gap);
      } else {
        NoneAppear(cfg, ticks, m, h);
      }
    }
  }

  lemma DueByEnd(start: int, hits: nat, most: int, unit: int)
    requires unit >= 0
    ensures hits <= most ==> LatestDue(start, hits, unit) <= start + most * unit
  {
    if hits <= most {
      assert (most - hits) * unit >= 0;
      assert most * unit == hits * unit + (most - hits) * unit;
    }
  }

  lemma {:induction false} NoneAppear(cfg: Config, ticks: seq<Tick>, m: map<Hash, Request>, h: Hash)
    requires h !in m
    ensures h !in TickedAt(cfg, ticks, m)
    decreases |ticks|
  {
    if ticks != [] {
      NoneAppear(cfg, ticks[..|ticks| - 1], m, h);
    }
  }

  /** The node's own setting: rounds every 900 ms against a 2 s timeout, three attempts. A fresh request is
      found overdue at the 3rd, 6th and 9th round and is gone after the 9th. */
  lemma DefaultTickerEmpties(cfg: Config, ticks: seq<Tick>, h: Hash, r: Request, t0: int)
    requires cfg.retryLimit == 3 && cfg.syncTimeout == 2000 && r.attempts == 1 && r.deadline == t0 + 2000
    requires |ticks| == 9 && forall i | 0 <= i < 9 :: ticks[i].now == t0 + 900 * (i + 1)
    ensures TickedAt(cfg, ticks[..8], map[h := r]) != map[] && TickedAt(cfg, ticks, map[h := r]) == map[]
  {
    hide TickedAt, Ticked;
    var m := map[h := r];
    assert ticks[..9] == ticks && ticks[..0] == [];
    NoRounds(cfg, m);
    for i := 0 to 8
      invariant OnlyRequest(TickedAt(cfg, ticks[..i], m), h, 1 + i / 3, t0 + 2000 + 2700 * (i / 3))
    {
      RoundAt(cfg, ticks, m, i);
      OneRequestTicks(cfg, ticks[i], TickedAt(cfg, ticks[..i], m), h, 1 + i / 3, t0 + 2000 + 2700 * (i / 3));
    }
    RoundAt(cfg, ticks, m, 8);
    OneRequestTicks(cfg, ticks[8], TickedAt(cfg, ticks[..8], m), h, 3, t0 + 7400);
  }

  ghost predicate OnlyRequest(m: map<Hash, Request>, h: Hash, attempts: nat, deadline: int) {
    m.Keys == {h} && m[h].attempts == attempts && m[h].deadline == deadline
  }

  lemma NoRounds(cfg: Config, m: map<Hash, Request>)
    ensures TickedAt(cfg, [], m) == m
  {}

  lemma OneRequestTicks(cfg: Config, k: Tick, m: map<Hash, Request>, h: Hash, attempts: nat, deadline: int)
    requires OnlyRequest(m, h, attempts, deadline)
    ensures var after := Ticked(cfg, k.best, k.now, m);
            if k.now < deadline then OnlyRequest(after, h, attempts, deadline)
            else if attempts < cfg.retryLimit then OnlyRequest(after, h, attempts + 1, k.now + cfg.syncTimeout)
            else after == map[]
  {
    assert h in m;
  }

  lemma RoundAt(cfg: Config, ticks: seq<Tick>, m: map<Hash, Request>, i: nat)
    requires i < |ticks|
    ensures TickedAt(cfg, ticks[..i + 1], m) == Ticked(cfg, ticks[i].best, ticks[i].now, TickedAt(cfg, ticks[..i], m))
  {
    assert ticks[..i + 1][..i] == ticks[..i];
  }
}
