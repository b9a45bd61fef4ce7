/** Proof-of-work arithmetic: the difficulty test, the work of a block, the transaction root. */
module Pow {
  import opened Types

  function Pow2(n: nat): (r: nat)
    ensures r > 0
  {
    if n == 0 then 1 else 2 * Pow2(n - 1)
  }

  lemma {:induction false} Pow2Adds(m: nat, n: nat)
    ensures Pow2(m + n) == Pow2(m) * Pow2(n)
  {
    if m > 0 {
      Pow2Adds(m - 1, n);
      assert m + n - 1 == m - 1 + n;
      assert Pow2(m) * Pow2(n) == 2 * (Pow2(m - 1) * Pow2(n));
    }
  }

  lemma {:induction false} Pow2Monotone(m: nat, n: nat)
    requires m <= n
    ensures Pow2(m) <= Pow2(n)
    decreases n
  {
    if m < n {
      Pow2Monotone(m, n - 1);
    }
  }

  // ---------- leading zero bits ----------

  /** Leading zeros among the low `k` bits of a byte. */
  function ZerosFrom(b: nat, k: nat): (r: nat)
    ensures r <= k
  {
    if k == 0 || (b / Pow2(k - 1)) % 2 == 1 then 0 else 1 + ZerosFrom(b, k - 1)
  }

  function LeadingZeroBits(h: seq<byte>): nat
  {
    if h == [] then 0
    else if h[0] == 0 then 8 + LeadingZeroBits(h[1..])
    else ZerosFrom(h[0], 8)
  }

  /** The nested byte and bit loops. */
  method CountLeadingZeroBits(h: seq<byte>) returns (count: nat)
    ensures count == LeadingZeroBits(h)
  {
    count := 0;
    for k := 0 to |h|
      invariant count + LeadingZeroBits(h[k..]) == LeadingZeroBits(h)
    {
      var b := h[k];
      assert h[k..][0] == b && h[k..][1..] == h[k + 1..];
      if b == 0 {
        count := count + 8;
      } else {
        var i := 7;
        while i >= 0
          invariant -1 <= i <= 7
          invariant count + ZerosFrom(b, i + 1) == LeadingZeroBits(h)
        {
          if (b / Pow2(i)) % 2 == 0 {
            count := count + 1;
          } else {
            return;
          }
          i := i - 1;
        }
        return;
      }
    }
  }

  predicate MeetsDifficulty(h: seq<byte>, difficulty: nat) {
    LeadingZeroBits(h) >= difficulty
  }

  function WorkForDifficulty(difficulty: nat): (w: nat)
    ensures w > 0
  {
    if difficulty == 0 then 1 else Pow2(difficulty)
  }

  // ---------- the numeric reading of the test ----------

  /** The digest read as one big-endian number. */
  function BigEndian(h: seq<byte>): nat
  {
    if h == [] then 0 else h[0] * Pow2(8 * (|h| - 1)) + BigEndian(h[1..])
  }

  lemma {:induction false} BigEndianBound(h: seq<byte>)
    ensures BigEndian(h) < Pow2(8 * |h|)
  {
    if h != [] {
      BigEndianBound(h[1..]);
      Pow2Adds(8, 8 * (|h| - 1));
      assert Pow2(8) == 256;
      ScaleBounds(h[0], h[0], 256, Pow2(8 * (|h| - 1)), BigEndian(h[1..]));
    }
  }

  /** Within the low `k` bits, having z leading zeros means lying in [2^(k-z-1), 2^(k-z)). */
  lemma {:induction false} ZerosFromRange(b: nat, k: nat)
    requires b < Pow2(k)
    ensures b < Pow2(k - ZerosFrom(b, k))
    ensures b > 0 ==> ZerosFrom(b, k) < k && Pow2(k - ZerosFrom(b, k) - 1) <= b
  {
    if k > 0 {
      Quotient(b, Pow2(k - 1));
      if b < Pow2(k - 1) {
        ZerosFromRange(b, k - 1);
        assert k - ZerosFrom(b, k) == k - 1 - ZerosFrom(b, k - 1);
      }
    }
  }

  lemma Quotient(b: nat, half: nat)
    requires 0 < half && b < 2 * half
    ensures b / half == if b < half then 0 else 1
  {
    var q, r := b / half, b % half;
    assert b == half * q + r && 0 <= r < half;
    AtLeastTwice(half, q);
    assert q == 0 || q == 1;
  }

  lemma AtLeastTwice(half: nat, q: nat)
    ensures q >= 2 ==> half * q >= 2 * half
  {
    if q >= 2 {
      assert half * (q - 2) >= 0;
      assert half * q == half * (q - 2) + 2 * half;
    }
  }

  /** A digest with c leading zero bits is below 2^(8n-c), and no lower power of two bounds it. */
  lemma {:induction false} LeadingZeroBitsRange(h: seq<byte>)
    ensures LeadingZeroBits(h) <= 8 * |h|
    ensures BigEndian(h) < Pow2(8 * |h| - LeadingZeroBits(h))
    ensures LeadingZeroBits(h) < 8 * |h| ==> Pow2(8 * |h| - LeadingZeroBits(h) - 1) <= BigEndian(h)
  {
    if h != [] {
      var rest := 8 * (|h| - 1);
      if h[0] == 0 {
        LeadingZeroBitsRange(h[1..]);
        assert 8 * |h| - LeadingZeroBits(h) == rest - LeadingZeroBits(h[1..]);
      } else {
        var b: nat, z := h[0], ZerosFrom(h[0], 8);
        assert Pow2(8) == 256;
        ZerosFromRange(b, 8);
        BigEndianBound(h[1..]);
        assert |h[1..]| == |h| - 1;
        Pow2Adds(8 - z, rest);
        Pow2Adds(8 - z - 1, rest);
        ScaleBounds(b, Pow2(8 - z - 1), Pow2(8 - z), Pow2(rest), BigEndian(h[1..]));
        assert 8 - z + rest == 8 * |h| - z && 8 - z - 1 + rest == 8 * |h| - z - 1;
      }
    }
  }

  lemma ScaleBounds(b: nat, lo: nat, hi: nat, unit: nat, low: nat)
    requires lo <= b < hi && low < unit
    ensures lo * unit <= b * unit + low < hi * unit
  {
    assert (b + 1) * unit <= hi * unit;
    assert lo * unit <= b * unit;
  }

  /** The bit-counting test is the numeric target test. */
  lemma MeetsDifficultyIffBelowTarget(h: seq<byte>, d: nat)
    requires |h| == 32
    ensures MeetsDifficulty(h, d) <==> d <= 256 && BigEndian(h) < Pow2(256 - d)
  {
    LeadingZeroBitsRange(h);
    var c := LeadingZeroBits(h);
    if d <= c {
      Pow2Monotone(256 - c, 256 - d);
    } else if d <= 256 {
      Pow2Monotone(256 - d, 256 - c - 1);
    }
  }

  /** Work is the expected number of digests per success: work times target is the digest space. */
  lemma WorkTimesTarget(d: nat)
    requires d <= 256
    ensures WorkForDifficulty(d) * Pow2(256 - d) == Pow2(256)
  {
    Pow2Adds(d, 256 - d);
  }

  // ---------- transaction root ----------

  /** The bytes fed to the hasher: transaction IDs separated by newlines. */
  function JoinIds(txs: seq<Tx>): string
  {
    if txs == [] then ""
    else if |txs| == 1 then txs[0].id
    else txs[0].id + "\n" + JoinIds(txs[1..])
  }

  function HashTransactions(c: Crypto, txs: seq<Tx>): Hash
  {
    c.sha256(JoinIds(txs))
  }

  /** The hasher loop: a separator before every ID but the first. */
  method FeedHasher(txs: seq<Tx>) returns (written: string)
    ensures written == JoinIds(txs)
  {
    written := "";
    for i := 0 to |txs|
      invariant i < |txs| ==> written + (if i > 0 then "\n" else "") + JoinIds(txs[i..]) == JoinIds(txs)
      invariant i == |txs| ==> written == JoinIds(txs)
    {
      assert txs[i..][1..] == txs[i + 1..];
      if i > 0 {
        written := written + "\n";
      }
      written := written + txs[i].id;
    }
  }

  predicate NewlineFree(s: string) { '\n' !in s }

  /** A text cut at its newlines. */
  function Lines(s: string): (r: seq<string>)
    ensures r != []
  {
    if s == "" then [""]
    else
      var rest := Lines(s[1..]);
      if s[0] == '\n' then [""] + rest else [[s[0]] + rest[0]] + rest[1..]
  }

  lemma {:induction false} LinesOfHead(a: string, rest: string)
    requires NewlineFree(a)
    ensures Lines(a) == [a] && Lines(a + "\n" + rest) == [a] + Lines(rest)
    decreases |a|
  {
    var all := a + "\n" + rest;
    if a == "" {
      assert all[0] == '\n' && all[1..] == rest;
    } else {
      assert all[0] == a[0] && all[1..] == a[1..] + "\n" + rest && [a[0]] + a[1..] == a;
      LinesOfHead(a[1..], rest);
    }
  }

  /** Cut at its newlines, the joined text of newline-free IDs gives back exactly the IDs, in order. */
  lemma {:induction false} LinesOfJoined(txs: seq<Tx>)
    requires txs != [] && forall t | t in txs :: NewlineFree(t.id)
    ensures var ids := Lines(JoinIds(txs)); |ids| == |txs| && forall i | 0 <= i < |txs| :: ids[i] == txs[i].id
    decreases |txs|
  {
    LinesOfHead(txs[0].id, if |txs| > 1 then JoinIds(txs[1..]) else "");
    if |txs| > 1 {
      LinesOfJoined(txs[1..]);
    }
  }

  ghost predicate SameIds(a: seq<Tx>, b: seq<Tx>) {
    |a| == |b| && forall i | 0 <= i < |a| :: a[i].id == b[i].id
  }

  /** The two lists the joined text cannot tell apart although no ID holds a newline. */
  ghost predicate EmptyAndBlank(a: seq<Tx>, b: seq<Tx>) {
    a == [] && |b| == 1 && b[0].id == ""
  }

  /** Over newline-free IDs the joined text determines the list of IDs, with one exception.
      It never covers payloads or timestamps. */
  lemma {:induction false} JoinedTextDeterminesIds(a: seq<Tx>, b: seq<Tx>)
    requires forall t | t in a :: NewlineFree(t.id)
    requires forall t | t in b :: NewlineFree(t.id)
    ensures JoinIds(a) == JoinIds(b) <==> SameIds(a, b) || EmptyAndBlank(a, b) || EmptyAndBlank(b, a)
  {
    if SameIds(a, b) {
      SameIdsJoinAlike(a, b);
    }
    if a != [] {
      LinesOfJoined(a);
    }
    if b != [] {
      LinesOfJoined(b);
    }
    assert Lines("") == [""];
  }

  lemma {:induction false} SameIdsJoinAlike(a: seq<Tx>, b: seq<Tx>)
    requires SameIds(a, b)
    ensures JoinIds(a) == JoinIds(b)
  {
    if |a| > 1 {
      SameIdsJoinAlike(a[1..], b[1..]);
    }
  }
}
