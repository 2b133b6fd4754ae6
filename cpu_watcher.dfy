// cpu_watcher's user-space side: the log2 histogram of context-switch
// delays, the per-interval deltas of the system counters, and the averages
// of the preemption and scheduling-delay reports.
module CpuWatcher {
  import opened BpfMaps
  import opened Wrappers
  import ScheduleDelayBpf

  const BUCKETS: nat := 25
  const SHOWN_BUCKETS: nat := 20
  const DIGIT_SLOTS: nat := 15
  const INT_MIN: int := -0x8000_0000

  /** A C conversion to a 32-bit int: keep the low 32 bits, read them as two's complement. */
  function ToI32(n: int): (r: int)
    ensures INT_MIN <= r < -INT_MIN
    ensures r % U32_LIMIT == n % U32_LIMIT
  {
    var x := n % U32_LIMIT;
    if x >= -INT_MIN then x - U32_LIMIT else x
  }

  /** C's integer division, which truncates toward zero. */
  function TruncDiv(a: int, b: int): (q: int)
    requires b != 0
    ensures Abs(q) == Abs(a) / Abs(b)
    ensures (a >= 0) == (b > 0) ==> q >= 0
    ensures (a >= 0) != (b > 0) ==> q <= 0
    ensures a >= 0 && b > 0 ==> q == a / b
    ensures q * b == a - TruncRem(a, b)
  {
    var m := Abs(a) / Abs(b);
    var q := if (a >= 0) == (b > 0) then m else -m;
    DivMod(Abs(a), Abs(b), m, Abs(a) % Abs(b));
    TruncDivTimesDivisor(a, b, m, q);
    q
  }

  /** The quotient times the divisor leaves the remainder. */
  lemma TruncDivTimesDivisor(a: int, b: int, m: int, q: int)
    requires b != 0 && m == Abs(a) / Abs(b)
    requires q == if (a >= 0) == (b > 0) then m else -m
    ensures q * b == a - TruncRem(a, b)
  {
    var A, B := Abs(a), Abs(b);
    var k := A % B;
    DivMod(A, B, m, k);
    if a >= 0 && b > 0 {
      assert q * b == m * B;
    } else if a >= 0 {
      MulNeg(m, B);
      assert q * b == m * B;
    } else if b > 0 {
      MulNeg(m, B);
      assert q * b == -(m * B);
    } else {
      MulNeg(m, B);
      assert q * b == -(m * B);
    }
  }

  lemma DivMod(A: nat, B: nat, m: int, k: int)
    requires B > 0 && m == A / B && k == A % B
    ensures m * B + k == A && m >= 0
  {
  }

  lemma MulNeg(x: int, y: int)
    ensures (-x) * y == -(x * y) && x * (-y) == -(x * y) && (-x) * (-y) == x * y
  {
  }

  /** C's remainder: it takes the sign of the dividend and is smaller than the divisor in magnitude. */
  function TruncRem(a: int, b: int): (r: int)
    requires b != 0
    ensures Abs(r) < Abs(b)
    ensures a >= 0 ==> r >= 0
    ensures a < 0 ==> r <= 0
    ensures Abs(r) == Abs(a) % Abs(b)
  {
    var m := Abs(a) % Abs(b);
    if a >= 0 then m else -m
  }

  /** Truncating division is the only quotient whose remainder has the dividend's sign and is below the divisor. */
  lemma TruncDivUnique(a: int, b: int, q: int, r: int)
    requires b != 0 && q * b + r == a && Abs(r) < Abs(b)
    requires a >= 0 ==> r >= 0
    requires a < 0 ==> r <= 0
    ensures q == TruncDiv(a, b) && r == TruncRem(a, b)
  {
    var q0, r0 := TruncDiv(a, b), TruncRem(a, b);
    assert (q - q0) * b == r0 - r;
    if q != q0 {
      assert Abs(r0 - r) < Abs(b);
      assert Abs((q - q0) * b) >= Abs(b) by {
        AbsProduct(q - q0, b);
      }
    }
  }

  lemma AbsProduct(x: int, y: int)
    requires x != 0
    ensures Abs(x * y) >= Abs(y)
  {
    if x > 0 && y >= 0 {
      assert x * y >= y;
    } else if x > 0 {
      assert x * y <= y;
    } else if y >= 0 {
      assert x * y <= -y;
    } else {
      assert x * y >= -y;
    }
  }

  function Abs(n: int): nat { if n < 0 then -n else n }

  function IntPow(n: int, k: nat): (r: int)
    ensures n != 0 ==> r != 0
    ensures n > 0 ==> r > 0
  {
    if k == 0 then 1 else n * IntPow(n, k - 1)
  }

  lemma {:induction false} IntPowMonotone(n: int, a: nat, b: nat)
    requires n >= 1 && a <= b
    ensures IntPow(n, a) <= IntPow(n, b)
    decreases b
  {
    if a < b {
      IntPowMonotone(n, a, b - 1);
    }
  }

  /** The program's own pow, in exact arithmetic: n^k, and its reciprocal for negative k. */
  function Pow(n: int, k: int): (r: real)
    requires k >= 0 || n != 0
    ensures k >= 0 ==> r == IntPow(n, k) as real
    ensures k < 0 ==> r == 1.0 / (IntPow(n, -k) as real)
    decreases if k < 0 then -2 * k + 1 else 2 * k
  {
    if k > 0 then (n as real) * Pow(n, k - 1)
    else if k == 0 then 1.0
    else 1.0 / Pow(n, -k)
  }

  /** The number of halvings that bring `n` down to 1: its integer log2, and 0 for n <= 1. */
  function Log2(n: int): (r: nat)
    ensures n <= 1 ==> r == 0
    ensures n >= 1 ==> IntPow(2, r) <= n < IntPow(2, r + 1)
    decreases n
  {
    if n <= 1 then 0 else 1 + Log2(n / 2)
  }

  /** The bucket of `n` is the one whose power-of-two range holds it. */
  lemma Log2Unique(n: int, i: nat)
    requires IntPow(2, i) <= n < IntPow(2, i + 1)
    ensures Log2(n) == i
  {
    var j := Log2(n);
    if j < i {
      IntPowMonotone(2, j + 1, i);
    } else if j > i {
      IntPowMonotone(2, i + 1, j);
    }
  }

  /** Delays below 2^25 fall in one of the 25 buckets. */
  lemma BucketInRange(n: int)
    requires n < IntPow(2, BUCKETS)
    ensures Log2(n) < BUCKETS
  {
    if n >= 1 {
      if Log2(n) >= BUCKETS {
        IntPowMonotone(2, BUCKETS, Log2(n));
      }
    }
  }

  /**
   * The histogram's row labels describe the buckets exactly: row 0 holds
   * the delays up to 1 and row i >= 1 those from 2^i to 2^(i+1) - 1.
   */
  lemma RowLabelsMatchBuckets(n: int, i: nat)
    requires n >= 0
    ensures Log2(n) == i <==> RowRange(i).0 <= n <= RowRange(i).1
  {
    if i >= 1 && IntPow(2, i) <= n <= IntPow(2, i + 1) - 1 {
      Log2Unique(n, i);
    }
  }

  /** The number of divisions by ten that bring `n` below 10: its decimal digits minus one. */
  function DecimalExponent(n: int): (r: nat)
    ensures n < 10 ==> r == 0
    ensures n >= 1 ==> IntPow(10, r) <= n < IntPow(10, r + 1)
    decreases n
  {
    if n < 10 then 0 else 1 + DecimalExponent(n / 10)
  }

  /** How many of the counts have `d` as their decimal exponent. */
  function CountWithExponent(s: seq<int>, d: nat): (r: nat)
    ensures r <= |s|
  {
    if |s| == 0 then 0
    else CountWithExponent(s[..|s| - 1], d) + (if DecimalExponent(s[|s| - 1]) == d then 1 else 0)
  }

  /** The table histogram builds: entry d counts the values whose decimal exponent is d. */
  function Tally(s: seq<int>): (t: seq<int>)
    ensures |t| == DIGIT_SLOTS
    ensures forall d :: 0 <= d < DIGIT_SLOTS ==> t[d] == CountWithExponent(s, d)
  {
    seq(DIGIT_SLOTS, d requires 0 <= d => CountWithExponent(s, d))
  }

  /** The program's scan for "the maximum" of log10: the last index whose entry exceeds the index kept so far. */
  function ScanMax(l: seq<int>): (m: nat)
    ensures m == 0 || m < |l|
  {
    if |l| == 0 then 0
    else
      var m := ScanMax(l[..|l| - 1]);
      if m < l[|l| - 1] then |l| - 1 else m
  }

  /** The number of stars print_hstgram prints for a bucket count. */
  function Stars(cnt: int, perLen: int): (r: nat)
    requires perLen >= 1
    ensures cnt >= 0 ==> r * perLen <= cnt < (r + 1) * perLen
    ensures cnt < 0 ==> r == 0
  {
    if cnt >= 0 then cnt / perLen else 0
  }

  /** The delay range histogram prints for bucket i: 0 to 1, then 2^i to 2^(i+1) - 1. */
  function RowRange(i: nat): (int, int)
  {
    if i == 0 then (0, 1) else (IntPow(2, i), IntPow(2, i + 1) - 1)
  }

  /** One printed row of the histogram. */
  datatype Row = Row(lo: int, hi: int, count: int, stars: nat)

  /** The report of one print_all interval: the growth of each counter since the previous one. */
  const METRICS: nat := 8

  /** The index of the first map lookup that failed, or |l|. */
  function FirstFailure(l: seq<Option<u64>>): (k: nat)
    ensures k <= |l| && forall j :: 0 <= j < k ==> l[j].Some?
  {
    if |l| == 0 || l[0].None? then 0 else 1 + FirstFailure(l[1..])
  }

  /** Counter `j`'s stored total after a print_all that failed at lookup `k`: replaced only if read. */
  function Stored(l: seq<Option<u64>>, j: nat, before: u64): u64
    requires j < |l|
  {
    if j < FirstFailure(l) then l[j].value else before
  }

  /** A failure at `k` after `k` successful lookups. */
  lemma {:induction false} FirstFailureIs(l: seq<Option<u64>>, k: nat)
    requires k <= |l| && (forall j :: 0 <= j < k ==> l[j].Some?) && (k < |l| ==> l[k].None?)
    ensures FirstFailure(l) == k
  {
    if k > 0 {
      FirstFailureIs(l[1..], k - 1);
    }
  }

  /** The growth of each counter, modulo 2^64. */
  function Deltas(before: seq<u64>, after: seq<u64>): (r: seq<u64>)
    requires |before| == |after|
    ensures |r| == |before|
  {
    seq(|before|, j requires 0 <= j < |before| => SubU64(after[j], before[j]))
  }

  /** Adding a delta to the old total gives the new total, modulo 2^64. */
  lemma DeltasAddUp(before: seq<u64>, after: seq<u64>)
    requires |before| == |after|
    ensures forall j :: 0 <= j < |before| ==> AddU64(before[j], Deltas(before, after)[j]) == after[j]
  {
  }

  /**
   * The lookups of print_all in order, on the totals of the previous call:
   * each counter read gets its delta and its new total, and the first failed
   * lookup stops there with the later counters untouched.
   */
  method ReadCounters(lookups: seq<Option<u64>>, before: seq<u64>) returns (k: nat, after: seq<u64>, deltas: seq<u64>)
    requires |lookups| == |before| == METRICS
    ensures k == FirstFailure(lookups)
    ensures |after| == METRICS && forall j :: 0 <= j < METRICS ==> after[j] == Stored(lookups, j, before[j])
    ensures k == METRICS ==> deltas == Deltas(before, after)
  {
    after, deltas := before, [];
    if lookups[0].None? {
      FirstFailureIs(lookups, 0);
      return 0, after, deltas;
    }
    deltas, after := deltas + [SubU64(lookups[0].value, before[0])], after[0 := lookups[0].value];
    if lookups[1].None? {
      FirstFailureIs(lookups, 1);
      return 1, after, deltas;
    }
    deltas, after := deltas + [SubU64(lookups[1].value, before[1])], after[1 := lookups[1].value];
    if lookups[2].None? {
      FirstFailureIs(lookups, 2);
      return 2, after, deltas;
    }
    deltas, after := deltas + [SubU64(lookups[2].value, before[2])], after[2 := lookups[2].value];
    if lookups[3].None? {
      FirstFailureIs(lookups, 3);
      return 3, after, deltas;
    }
    deltas, after := deltas + [SubU64(lookups[3].value, before[3])], after[3 := lookups[3].value];
    if lookups[4].None? {
      FirstFailureIs(lookups, 4);
      return 4, after, deltas;
    }
    deltas, after := deltas + [SubU64(lookups[4].value, before[4])], after[4 := lookups[4].value];
    if lookups[5].None? {
      FirstFailureIs(lookups, 5);
      return 5, after, deltas;
    }
    deltas, after := deltas + [SubU64(lookups[5].value, before[5])], after[5 := lookups[5].value];
    if lookups[6].None? {
      FirstFailureIs(lookups, 6);
      return 6, after, deltas;
    }
    deltas, after := deltas + [SubU64(lookups[6].value, before[6])], after[6 := lookups[6].value];
    if lookups[7].None? {
      FirstFailureIs(lookups, 7);
      return 7, after, deltas;
    }
    deltas, after := deltas + [SubU64(lookups[7].value, before[7])], after[7 := lookups[7].value];
    FirstFailureIs(lookups, METRICS);
    k := METRICS;
  }

  /** Each reported delta is the difference of the two totals read, when it did not wrap. */
  lemma DeltaIsGrowth(before: seq<u64>, after: seq<u64>, j: nat)
    requires |before| == |after| && j < |before| && before[j] <= after[j]
    ensures Deltas(before, after)[j] == after[j] - before[j]
  {
  }

  /** The state of the tool between reports. */
  class CpuWatcherState {
    const count: array<int>
    var proc: u64
    var sched: u64
    var irqtime: u64
    var softirq: u64
    var idle: u64
    var ktTime: u64
    var utTime: u64
    var tickUser: u64
    var enableProc: bool
    var preemptCount: int
    var sumPreemptTime: int
    var preemptStartPrint: bool

    /** The stored counter totals, in the order print_all reads them. */
    function Totals(): seq<u64>
      reads this`proc, this`sched, this`irqtime, this`softirq, this`idle, this`ktTime, this`utTime, this`tickUser
    {
      [proc, sched, irqtime, softirq, idle, ktTime, utTime, tickUser]
    }

    constructor ()
      ensures count.Length == BUCKETS && count[..] == seq(BUCKETS, _ => 0) && fresh(count)
      ensures Totals() == seq(METRICS, _ => 0) && !enableProc
      ensures preemptCount == 0 && sumPreemptTime == 0 && !preemptStartPrint
    {
      count := new int[BUCKETS](_ => 0);
      proc, sched, irqtime, softirq, idle, ktTime, utTime, tickUser := 0, 0, 0, 0, 0, 0, 0, 0;
      enableProc := false;
      preemptCount, sumPreemptTime, preemptStartPrint := 0, 0, false;
    }

    /**
     * handle_event: count the event's delay in bucket log2 of it.  The
     * delay is cast to int first, and must then be below 2^25 for the
     * bucket to exist.
     */
    method HandleEvent(delay: u64) returns (ret: int)
      requires count.Length == BUCKETS && ToI32(delay) < IntPow(2, BUCKETS)
      modifies count
      ensures ret == 0 && Log2(ToI32(delay)) < BUCKETS
      ensures count[..] == old(count[..])[Log2(ToI32(delay)) := old(count[Log2(ToI32(delay))]) + 1]
    {
      var dly := ToI32(delay);
      var i := 0;
      while dly > 1
        invariant i + Log2(dly) == Log2(ToI32(delay))
        decreases dly
      {
        dly := dly / 2;
        i := i + 1;
      }
      BucketInRange(ToI32(delay));
      count[i] := count[i] + 1;
      ret := 0;
    }

    /** print_hstgram: one star per `perLen` events of bucket `i`, returning `perLen`. */
    method PrintHstgram(i: nat, max: int, perLen: int) returns (stars: nat, ret: int)
      requires count.Length == BUCKETS && i < BUCKETS && perLen >= 1
      ensures ret == perLen && stars == Stars(count[i], perLen)
      ensures perLen == 1 && count[i] >= 0 ==> stars == count[i]
    {
      var cnt := count[i];
      stars := 0;
      if perLen == 1 {
        while cnt > 0
          invariant count[i] > 0 ==> 0 <= cnt && stars + cnt == count[i]
          invariant count[i] <= 0 ==> cnt == count[i] && stars == 0
        {
          stars := stars + 1;
          cnt := cnt - 1;
        }
      }
      ghost var s0, c0 := stars, cnt;
      var q := 0;
      while cnt - perLen >= 0
        invariant q * perLen + cnt == c0 && stars == s0 + q && q >= 0
        invariant c0 >= 0 ==> cnt >= 0
        invariant c0 < 0 ==> q == 0
        decreases cnt
      {
        stars := stars + 1;
        q := q + 1;
        cnt := cnt - perLen;
      }
      if c0 >= 0 {
        DivUnique(c0, perLen, q, cnt);
      }
      ret := perLen;
    }

    /** The first part of histogram: log10[d] counts the first ten buckets whose decimal exponent is d. */
    method TallyExponents() returns (log10: array<int>)
      requires count.Length == BUCKETS
      requires forall i :: 0 <= i < 10 ==> DecimalExponent(count[i]) < DIGIT_SLOTS
      ensures fresh(log10) && log10.Length == DIGIT_SLOTS
      ensures log10[..] == Tally(count[..10])
    {
      log10 := new int[DIGIT_SLOTS](_ => 0);
      var i := 0;
      while i < 10
        invariant 0 <= i <= 10
        invariant forall d :: 0 <= d < DIGIT_SLOTS ==> log10[d] == CountWithExponent(count[..i], d)
      {
        var tmp, cnt := count[i], 0;
        while tmp >= 10
          invariant cnt + DecimalExponent(tmp) == DecimalExponent(count[i])
          decreases tmp
        {
          tmp := tmp / 10;
          cnt := cnt + 1;
        }
        assert count[..i + 1][..i] == count[..i];
        log10[cnt] := log10[cnt] + 1;
        i := i + 1;
      }
      assert forall d :: 0 <= d < DIGIT_SLOTS ==> log10[..][d] == Tally(count[..10])[d];
    }

    /**
     * histogram: scale the stars by a power of ten chosen from the decimal
     * sizes of the first ten buckets, and print the first twenty buckets
     * with their delay ranges.
     */
    method Histogram() returns (rows: seq<Row>, perLen: int)
      requires count.Length == BUCKETS
      requires forall i :: 0 <= i < 10 ==> DecimalExponent(count[i]) < DIGIT_SLOTS
      ensures perLen >= 1
      ensures exists m :: 0 <= m < 10 && perLen == IntPow(10, m)
      ensures perLen == IntPow(10, ScanMax(Tally(count[..10])[..10]))
      ensures |rows| == SHOWN_BUCKETS
      ensures forall i :: 0 <= i < SHOWN_BUCKETS ==> rows[i].count == count[i] && rows[i].stars == Stars(count[i], perLen)
      ensures forall i :: 0 <= i < SHOWN_BUCKETS ==> (rows[i].lo, rows[i].hi) == RowRange(i)
    {
      var log10 := TallyExponents();
      var max := 0;
      var i := 0;
      while i < 10
        invariant 0 <= i <= 10 && max == ScanMax(log10[..i]) && 0 <= max < 10
      {
        assert log10[..i + 1][..i] == log10[..i];
        if max < log10[i] {
          max := i;
        }
        i := i + 1;
      }
      assert log10[..10] == Tally(count[..10])[..10];
      ghost var m := max;
      perLen := 1;
      while max > 0
        invariant 0 <= max <= m && perLen == IntPow(10, m - max)
      {
        assert IntPow(10, m - max + 1) == 10 * IntPow(10, m - max);
        perLen := perLen * 10;
        max := max - 1;
      }
      rows := PrintRows(max, perLen);
    }

    /** The last part of histogram: the first twenty buckets with their delay ranges and stars. */
    method PrintRows(max: int, perLen: int) returns (rows: seq<Row>)
      requires count.Length == BUCKETS && perLen >= 1
      ensures |rows| == SHOWN_BUCKETS
      ensures forall i :: 0 <= i < SHOWN_BUCKETS ==> rows[i].count == count[i] && rows[i].stars == Stars(count[i], perLen)
      ensures forall i :: 0 <= i < SHOWN_BUCKETS ==> (rows[i].lo, rows[i].hi) == RowRange(i)
    {
      rows := [];
      var stars, returned := PrintHstgram(0, max, perLen);
      rows := rows + [Row(0, 1, count[0], stars)];
      stars, returned := PrintHstgram(1, max, perLen);
      rows := rows + [Row(2, 3, count[1], stars)];
      assert IntPow(2, 1) == 2 && IntPow(2, 2) == 4;
      var i := 2;
      while i < SHOWN_BUCKETS
        invariant 2 <= i <= SHOWN_BUCKETS && |rows| == i
        invariant forall j :: 0 <= j < i ==> rows[j].count == count[j] && rows[j].stars == Stars(count[j], perLen)
        invariant forall j :: 0 <= j < i ==> (rows[j].lo, rows[j].hi) == RowRange(j)
      {
        stars, returned := PrintHstgram(i, max, perLen);
        var lo, hi := Pow(2, i).Floor, Pow(2, i + 1).Floor - 1;
        assert (lo, hi) == RowRange(i);
        ghost var prev := rows;
        rows := rows + [Row(lo, hi, count[i], stars)];
        assert forall j :: 0 <= j < i ==> rows[j] == prev[j];
        assert rows[i] == Row(lo, hi, count[i], stars);
        i := i + 1;
      }
    }

    /** The stores of print_all: each counter keeps the total it read. */
    method SetTotals(t: seq<u64>)
      requires |t| == METRICS
      modifies this`proc, this`sched, this`irqtime, this`softirq, this`idle, this`ktTime, this`utTime, this`tickUser
      ensures Totals() == t
    {
      proc, sched, irqtime, softirq := t[0], t[1], t[2], t[3];
      idle, ktTime, utTime, tickUser := t[4], t[5], t[6], t[7];
    }

    /**
     * print_all after its map lookups: each counter reports its growth
     * since the last call and stores its new total; a failed lookup stops
     * there with -1.  The first successful call reports nothing.
     */
    method PrintAll(lookups: seq<Option<u64>>) returns (ret: int, report: Option<seq<u64>>)
      requires |lookups| == METRICS
      modifies this`proc, this`sched, this`irqtime, this`softirq, this`idle, this`ktTime, this`utTime, this`tickUser
      modifies this`enableProc
      ensures |Totals()| == METRICS && forall j :: 0 <= j < METRICS ==> Totals()[j] == Stored(lookups, j, old(Totals())[j])
      ensures ret == (if FirstFailure(lookups) < METRICS then -1 else 0)
      ensures report == if FirstFailure(lookups) < METRICS || !old(enableProc) then None
                        else Some(Deltas(old(Totals()), Totals()))
      ensures enableProc == (old(enableProc) || FirstFailure(lookups) == METRICS)
    {
      var k, after, deltas := ReadCounters(lookups, Totals());
      SetTotals(after);
      ret, report := -1, None;
      if k < METRICS {
        return;
      }
      ret := 0;
      if enableProc {
        report := Some(deltas);
      } else {
        enableProc := true;
      }
    }

    /** preempt_print: one more preemption, its duration added to an int total. */
    method PreemptPrint(duration: u64) returns (ret: int)
      modifies this
      ensures ret == 0 && preemptCount == old(preemptCount) + 1
      ensures sumPreemptTime == ToI32(old(sumPreemptTime) + duration)
      ensures Totals() == old(Totals()) && enableProc == old(enableProc) && preemptStartPrint == old(preemptStartPrint)
    {
      preemptCount := preemptCount + 1;
      sumPreemptTime := ToI32(sumPreemptTime + duration);
      ret := 0;
    }

    /**
     * The end of one preemption window: from the second window on, the
     * average preemption time (unguarded against an empty window), then
     * both accumulators restart at 0.
     */
    method PreemptWindow() returns (average: Option<int>)
      requires preemptStartPrint ==> preemptCount != 0
      modifies this
      ensures !old(preemptStartPrint) ==> average.None?
      ensures old(preemptStartPrint) ==> average == Some(TruncDiv(old(sumPreemptTime), old(preemptCount)))
      ensures preemptStartPrint && preemptCount == 0 && sumPreemptTime == 0
      ensures Totals() == old(Totals()) && enableProc == old(enableProc)
    {
      if !preemptStartPrint {
        preemptStartPrint := true;
        average := None;
      } else {
        average := Some(TruncDiv(sumPreemptTime, preemptCount));
      }
      preemptCount := 0;
      sumPreemptTime := 0;
    }
  }

  /** Euclid's quotient is the only one with a remainder below the divisor. */
  lemma DivUnique(c: int, p: int, q: int, r: int)
    requires p > 0 && 0 <= r < p && q * p + r == c
    ensures q == c / p
  {
    var q', r' := c / p, c % p;
    assert q' * p + r' == c;
    if q < q' {
      assert p * (q + 1) == p * q + p;
      MulMonotone(p, q + 1, q');
    } else if q > q' {
      assert p * (q' + 1) == p * q' + p;
      MulMonotone(p, q' + 1, q);
    }
  }

  lemma {:induction false} MulMonotone(a: nat, b: int, c: int)
    requires b <= c
    ensures a * b <= a * c
    decreases a
  {
    if a > 0 {
      MulMonotone(a - 1, b, c);
      assert a * b == (a - 1) * b + b;
      assert a * c == (a - 1) * c + c;
    }
  }

  /** schedule_print's average delay, unguarded against an empty summary. */
  function AverageDelay(info: ScheduleDelayBpf.SumSchedule): (r: u64)
    requires info.sumCount != 0
    ensures r * info.sumCount <= info.sumDelay < (r + 1) * info.sumCount
  {
    info.sumDelay / info.sumCount
  }

  lemma {:induction false} SumWithinExtremes(d: seq<u64>)
    requires |d| > 0
    ensures |d| * ScheduleDelayBpf.MinOf(d) <= ScheduleDelayBpf.SumOf(d) <= |d| * ScheduleDelayBpf.MaxOf(d)
  {
    if |d| > 1 {
      var p := d[..|d| - 1];
      var x := d[|d| - 1];
      SumWithinExtremes(p);
      var n: nat := |p|;
      var mn, mx := ScheduleDelayBpf.MinOf(p), ScheduleDelayBpf.MaxOf(p);
      var mn', mx' := ScheduleDelayBpf.MinOf(d), ScheduleDelayBpf.MaxOf(d);
      var sp := ScheduleDelayBpf.SumOf(p);
      assert ScheduleDelayBpf.SumOf(d) == sp + x;
      assert mn' <= mn && mn' <= x;
      assert mx' >= mx && mx' >= x;
      assert n * mn <= sp <= n * mx;
      MulMonotone(n, mn', mn);
      MulMonotone(n, mx, mx');
      MulSucc(n, mn');
      MulSucc(n, mx');
    }
  }

  /** A quotient of a sum lying between n*lo and n*hi lies between lo and hi. */
  lemma QuotientBetween(n: int, total: int, lo: int, hi: int)
    requires n > 0 && n * lo <= total <= n * hi
    ensures lo <= total / n <= hi
  {
    var a := total / n;
    assert a * n <= total < (a + 1) * n;
    if a < lo {
      assert n * (a + 1) == (a + 1) * n;
      MulMonotone(n, a + 1, lo);
    } else if a > hi {
      assert n * a == a * n && n * (hi + 1) == n * hi + n;
      MulMonotone(n, hi + 1, a);
    }
  }

  lemma SmallModIsSelf(n: int)
    requires 0 <= n < U64_LIMIT
    ensures n % U64_LIMIT == n
  {
  }

  lemma MulSucc(n: nat, m: int)
    ensures (n + 1) * m == n * m + m
  {
  }

  /**
   * Without wrap-around, the average scheduling delay of a run of positive
   * delays lies between the smallest and the largest of them.
   */
  lemma AverageWithinExtremes(d: seq<u64>)
    requires |d| > 0 && forall i :: 0 <= i < |d| ==> d[i] > 0
    requires |d| < U64_LIMIT && ScheduleDelayBpf.SumOf(d) < U64_LIMIT
    ensures var info := ScheduleDelayBpf.SummarizeAll(ScheduleDelayBpf.ZERO_SUM, d);
            info.sumCount != 0 &&
            info.minDelay <= AverageDelay(info) <= info.maxDelay
  {
    var info := ScheduleDelayBpf.SummarizeAll(ScheduleDelayBpf.ZERO_SUM, d);
    var n, total := |d|, ScheduleDelayBpf.SumOf(d);
    ScheduleDelayBpf.SummaryCountsAndSums(d);
    SmallModIsSelf(n);
    SmallModIsSelf(total);
    assert info.sumCount == n && info.sumDelay == total;
    ScheduleDelayBpf.SummaryMaximum(d);
    ScheduleDelayBpf.SummaryMinimum(d);
    SumWithinExtremes(d);
    QuotientBetween(n, total, ScheduleDelayBpf.MinOf(d), ScheduleDelayBpf.MaxOf(d));
    assert AverageDelay(info) == total / n;
  }
}
