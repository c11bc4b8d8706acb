/**
 The sliding-window rate estimator of `example/iperf-bats/progressbar.h`: two
 circular arrays with cached sums, a window that grows once, and the guard that
 decides which updates are taken.

 Times and counts are unbounded integers: no sum of a window wraps in the range
 the bar is used for. Rates are real numbers.
 */
module ProgressBars {
  import opened Arithmetic

  const MAX_SMOOTH: nat := 75
  const FIRST_SMOOTH: nat := 50

  // ------------------------------------------------------------------ the period

  function Pow2(p: nat): (r: int)
    ensures r >= 1
  {
    if p == 0 then 1 else 2 * Pow2(p - 1)
  }

  /** `curr >> p` for a non-negative number. */
  function Shifted(curr: nat, p: nat): nat {
    if p == 0 then curr else Shifted(curr / 2, p - 1)
  }

  lemma DoubleBounds(curr: nat, s: int, m: int)
    requires s * m <= curr / 2 < (s + 1) * m
    ensures s * (2 * m) <= curr < (s + 1) * (2 * m)
  {
    assert s * (2 * m) == 2 * (s * m);
    assert (s + 1) * (2 * m) == 2 * ((s + 1) * m);
  }

  /** Shifting is division by the power of two, rounded down. */
  lemma {:induction false} ShiftedIsQuotient(curr: nat, p: nat)
    ensures Shifted(curr, p) * Pow2(p) <= curr < (Shifted(curr, p) + 1) * Pow2(p)
  {
    if p > 0 {
      ShiftedIsQuotient(curr / 2, p - 1);
      DoubleBounds(curr, Shifted(curr, p), Pow2(p - 1));
    }
  }

  lemma {:induction false} ShiftedGrows(a: nat, b: nat, p: nat)
    requires a <= b
    ensures Shifted(a, p) <= Shifted(b, p)
  {
    if p > 0 {
      ShiftedGrows(a / 2, b / 2, p - 1);
    }
  }

  lemma Pow2Nineteen()
    ensures Pow2(19) == 524288
  {
    assert Pow2(4) == 16;
    assert Pow2(8) == 256;
    assert Pow2(12) == 4096;
    assert Pow2(16) == 65536;
  }

  /**
   The period as a number between 1 and 500000: progress per 25th of the elapsed time.
   With no time elapsed the source divides by zero; any progress then counts as fast.
   */
  function RawPeriod(curr: nat, elapsed: nat): (r: int)
    ensures 1 <= r <= 500000
    ensures elapsed > 0 ==> (25 * r * elapsed <= curr || r == 1) && (curr < 25 * (r + 1) * elapsed || r == 500000)
    ensures (curr == 0 ==> r == 1) && (curr > 0 && elapsed == 0 ==> r == 500000)
  {
    if elapsed == 0 then (if curr == 0 then 1 else 500000)
    else
      PeriodBounds(curr, elapsed);
      var x := curr / (25 * elapsed);
      if x < 1 then 1 else if 500000 < x then 500000 else x
  }

  lemma PeriodBounds(curr: nat, elapsed: nat)
    requires elapsed > 0
    ensures var x := curr / (25 * elapsed);
            25 * x * elapsed <= curr < 25 * (x + 1) * elapsed
    ensures curr / (25 * elapsed) > 500000 ==> 25 * 500000 * elapsed <= curr
    ensures curr / (25 * elapsed) < 1 ==> curr < 25 * 2 * elapsed
  {
    var m := 25 * elapsed;
    var x := curr / m;
    QuotientBounds(curr, m);
    Regroup(x, elapsed);
    Regroup(x + 1, elapsed);
    if x > 500000 {
      Larger(500000, x, m);
    }
  }

  lemma QuotientBounds(v: nat, m: int)
    requires m > 0
    ensures v / m * m <= v < (v / m + 1) * m
  {
    assert v == v / m * m + v % m;
  }

  lemma Regroup(x: int, e: int)
    ensures 25 * x * e == x * (25 * e)
  {
  }

  lemma Larger(a: int, b: int, m: int)
    requires a <= b && m > 0
    ensures a * m <= b * m
  {
  }

  /** `p` is the least exponent whose power of two reaches the period, and at most 19. */
  ghost predicate IsPeriodPower(p: nat, rawPeriod: int) {
    Pow2(p) >= rawPeriod && p <= 19 && forall q: nat :: q < p ==> Pow2(q) < rawPeriod
  }

  /** The loop that looks for the power of two. */
  method PeriodPower(rawPeriod: int) returns (p: nat)
    requires 1 <= rawPeriod <= 500000
    ensures IsPeriodPower(p, rawPeriod)
  {
    p := 0;
    var pow := 1;
    Pow2Nineteen();
    while pow < rawPeriod
      invariant pow == Pow2(p)
      invariant p <= 19
      invariant forall q: nat :: q < p ==> Pow2(q) < rawPeriod
      decreases 19 - p
    {
      pow := pow * 2;
      p := p + 1;
    }
  }

  /** The guard: progress in units of the period, or the end. */
  predicate Accepts(curr: nat, tot: int, p: nat, lastDiv: nat) {
    Shifted(curr, p) > lastDiv || curr == tot
  }

  /** The guard asks for a value in a later multiple of the period. */
  lemma GuardMeans(curr: nat, p: nat, lastDiv: nat)
    ensures Shifted(curr, p) > lastDiv <==> curr >= (lastDiv + 1) * Pow2(p)
  {
    ShiftedIsQuotient(curr, p);
    var q, m := Shifted(curr, p), Pow2(p);
    if q > lastDiv {
      assert (lastDiv + 1) * m <= q * m;
    } else {
      assert (q + 1) * m <= (lastDiv + 1) * m;
    }
  }

  /** While the guard's memory is not behind the progress shown, only larger values or the end pass it. */
  lemma AcceptedMeansProgress(curr: nat, tot: int, p: nat, lastDiv: nat, shown: nat)
    requires Accepts(curr, tot, p, lastDiv) && lastDiv >= Shifted(shown, p) && curr != tot
    ensures curr > shown
  {
    if curr <= shown {
      ShiftedGrows(curr, shown, p);
    }
  }

  // ------------------------------------------------------------ windows and sums

  /** The sum of the entries from `lo` up to, not including, `hi`. */
  ghost function SumRange(s: seq<int>, lo: nat, hi: nat): int
    requires hi <= |s|
  {
    if hi <= lo then 0 else SumRange(s, lo, hi - 1) + s[hi - 1]
  }

  lemma {:induction false} SumPrefix(s: seq<int>, x: int, lo: nat, hi: nat)
    requires hi <= |s|
    ensures SumRange(s + [x], lo, hi) == SumRange(s, lo, hi)
  {
    if lo < hi {
      SumPrefix(s, x, lo, hi - 1);
    }
  }

  lemma {:induction false} SumDropFirst(s: seq<int>, lo: nat, hi: nat)
    requires lo < hi <= |s|
    ensures SumRange(s, lo + 1, hi) == SumRange(s, lo, hi) - s[lo]
  {
    if lo + 1 < hi {
      SumDropFirst(s, lo, hi - 1);
    } else {
      assert SumRange(s, lo, lo) == 0;
    }
  }

  /** The sum of a window after one more entry: extended, or moved on by one. */
  lemma SumStep(s: seq<int>, x: int, lo: nat)
    requires lo <= |s|
    ensures SumRange(s + [x], lo, |s| + 1) == SumRange(s, lo, |s|) + x
    ensures lo < |s| ==> SumRange(s + [x], lo + 1, |s| + 1) == SumRange(s, lo, |s|) - s[lo] + x
  {
    SumPrefix(s, x, lo, |s|);
    if lo < |s| {
      SumPrefix(s, x, lo + 1, |s|);
      SumDropFirst(s, lo, |s|);
    }
  }

  /** Each entry is the difference of two successive progress values. */
  ghost predicate Differences(values: seq<int>, dns: seq<int>) {
    |values| == |dns| + 1
    && forall i {:trigger dns[i]} :: 0 <= i < |dns| ==> dns[i] == values[i + 1] - values[i]
  }

  lemma DifferencesAppend(values: seq<int>, dns: seq<int>, x: int)
    requires Differences(values, dns)
    ensures Differences(values + [x], dns + [x - values[|dns|]])
  {
  }

  /** The progress in a window is its last value minus the value at its start. */
  lemma {:induction false} WindowTelescopes(values: seq<int>, dns: seq<int>, lo: nat, hi: nat)
    requires Differences(values, dns) && lo <= hi <= |dns|
    ensures SumRange(dns, lo, hi) == values[hi] - values[lo]
  {
    if lo < hi {
      WindowTelescopes(values, dns, lo, hi - 1);
    }
  }

  // ---------------------------------------------------------- the circular buffer

  /** Where entry `k` of the window lies in a circular buffer of `cap` slots. */
  function Slot(head: nat, k: nat, cap: nat): (r: nat)
    requires head < cap && k <= cap
    ensures r < cap
  {
    if head + k < cap then head + k else head + k - cap
  }

  lemma ModIsSlot(head: nat, k: nat, cap: nat)
    requires head < cap && k <= cap
    ensures (head + k) % cap == Slot(head, k, cap)
  {
    if head + k < cap {
      DivModUnique(head + k, cap, 0, head + k);
    } else {
      DivModUnique(head + k, cap, 1, head + k - cap);
    }
  }

  lemma ModWithCap(head: nat, k: nat, cap: nat)
    requires head < cap && k < cap
    ensures (head + k + cap) % cap == Slot(head, k, cap)
  {
    if head + k < cap {
      DivModUnique(head + k + cap, cap, 1, head + k);
    } else {
      DivModUnique(head + k + cap, cap, 2, head + k - cap);
    }
  }

  /** The slot of entry `k`, as the source computes it. */
  method SlotIndex(head: nat, k: nat, cap: nat) returns (slot: nat)
    requires head < cap && k <= cap
    ensures slot == Slot(head, k, cap)
  {
    ModIsSlot(head, k, cap);
    slot := (head + k) % cap;
  }

  /** The same for a position counted back from the newest entry, with `cap` added first. */
  method SlotFromNewest(head: nat, size: nat, i: nat, cap: nat) returns (slot: nat)
    requires head < cap && i < size <= cap
    ensures slot == Slot(head, size - 1 - i, cap)
  {
    ModWithCap(head, size - 1 - i, cap);
    slot := (head + size - 1 - i + cap) % cap;
  }

  /** The slot for entry `j` of `s` holds it, when the last `size` entries start at `head`. */
  ghost predicate InSlot(a: seq<int>, head: nat, cap: nat, s: seq<int>, size: nat, j: int)
    requires head < cap <= |a| && size <= cap && size <= |s| && |s| - size <= j < |s|
  {
    a[Slot(head, j - (|s| - size), cap)] == s[j]
  }

  /** The buffer `a` holds the last `size` entries of `s`, the oldest of them at `head`. */
  ghost predicate Holds(a: seq<int>, head: nat, cap: nat, s: seq<int>, size: nat) {
    && head < cap <= |a| && size <= cap && size <= |s|
    && forall j :: |s| - size <= j < |s| ==> InSlot(a, head, cap, s, size, j)
  }

  /** Overwriting the oldest entry of a full buffer and moving the head on slides the window. */
  lemma SlideWindow(a: seq<int>, head: nat, cap: nat, s: seq<int>, x: int)
    requires Holds(a, head, cap, s, cap)
    ensures Holds(a[head := x], Slot(head, 1, cap), cap, s + [x], cap)
    ensures a[head] == s[|s| - cap]
  {
    var b, next, t := a[head := x], Slot(head, 1, cap), s + [x];
    assert InSlot(a, head, cap, s, cap, |s| - cap);
    forall j | |t| - cap <= j < |t|
      ensures InSlot(b, next, cap, t, cap, j)
    {
      if j < |s| {
        assert InSlot(a, head, cap, s, cap, j);
        assert Slot(next, j - (|t| - cap), cap) == Slot(head, j - (|s| - cap), cap);
      } else {
        assert Slot(next, j - (|t| - cap), cap) == head;
      }
    }
  }

  lemma ExtendWindow(a: seq<int>, cap: nat, s: seq<int>, x: int)
    requires Holds(a, 0, cap, s, |s|) && |s| < cap
    ensures Holds(a[|s| := x], 0, cap, s + [x], |s| + 1)
  {
    var b, t := a[|s| := x], s + [x];
    forall j | |t| - |t| <= j < |t|
      ensures InSlot(b, 0, cap, t, |t|, j)
    {
      assert j < |s| ==> InSlot(a, 0, cap, s, |s|, j);
    }
  }

  /** A buffer that has not wrapped may be given more slots. */
  lemma GrowBuffer(a: seq<int>, cap: nat, more: nat, s: seq<int>, size: nat)
    requires Holds(a, 0, cap, s, size) && cap <= more <= |a|
    ensures Holds(a, 0, more, s, size)
  {
    forall j | |s| - size <= j < |s|
      ensures InSlot(a, 0, more, s, size, j)
    {
      assert InSlot(a, 0, cap, s, size, j);
    }
  }

  lemma EntryAt(a: seq<int>, head: nat, cap: nat, s: seq<int>, size: nat, j: nat)
    requires Holds(a, head, cap, s, size) && |s| - size <= j < |s|
    ensures a[Slot(head, j - (|s| - size), cap)] == s[j]
  {
    assert InSlot(a, head, cap, s, size, j);
  }

  /**
   The rate of one sample in units per second. A sample without elapsed time has no
   rate in the source; `atZero` stands for whatever the division gives there.
   */
  function SampleRate(dn: int, dt: int, atZero: real): (r: real)
    ensures dt != 0 ==> r * dt as real == dn as real * 1000000.0
    ensures dt == 0 ==> r == atZero
  {
    if dt == 0 then atZero else dn as real / dt as real * 1000000.0
  }

  /**
   The exponential average over the updates from position `k` on: the newest first, each
   older one mixed in with weight 0.1.
   */
  ghost function Ema(atZero: real, dns: seq<int>, dts: seq<int>, k: nat): real
    requires k < |dns| == |dts|
    decreases |dns| - k
  {
    if k + 1 == |dns| then SampleRate(dns[k], dts[k], atZero)
    else 0.1 * SampleRate(dns[k], dts[k], atZero) + 0.9 * Ema(atZero, dns, dts, k + 1)
  }

  lemma EmaStep(atZero: real, dns: seq<int>, dts: seq<int>, k: nat, r: real, avg: real)
    requires |dns| == |dts| && k + 1 < |dns|
    requires r == SampleRate(dns[k], dts[k], atZero) && avg == Ema(atZero, dns, dts, k + 1)
    ensures 0.1 * r + 0.9 * avg == Ema(atZero, dns, dts, k)
  {
  }

  // ------------------------------------------------------------------- the object

  /** Every update accepted since the start or the last reset. */
  datatype History = History(dts: seq<int>, dns: seq<int>, values: seq<int>)

  const NoHistory := History([], [], [0])

  function Noted(h: History, dt: int, dn: int, curr: int): History {
    History(h.dts + [dt], h.dns + [dn], h.values + [curr])
  }

  function WindowSize(count: nat, cap: nat): nat {
    if count <= cap then count else cap
  }

  /** The progress values behind the history, and 50 slots only while it is short. */
  ghost predicate CountsOk(h: History, nOld: int, nUpdates: nat, cap: nat) {
    && Differences(h.values, h.dns) && h.values[|h.dns|] == nOld >= 0
    && nUpdates == |h.dns|
    && (cap == MAX_SMOOTH || (cap == FIRST_SMOOTH && nUpdates <= 10))
  }

  lemma NotedCounts(h: History, nOld: int, nUpdates: nat, cap: nat, dt: int, curr: nat)
    requires CountsOk(h, nOld, nUpdates, cap)
    ensures var g := Noted(h, dt, curr - nOld, curr);
            CountsOk(g, curr, nUpdates + 1, if nUpdates + 1 > 10 then MAX_SMOOTH else cap)
  {
    DifferencesAppend(h.values, h.dns, curr);
  }

  /** The contents of a sample ring as a value: both arrays, position, size, cached sums and capacity. */
  datatype Ring = Ring(ts: seq<int>, ns: seq<int>, head: nat, size: nat, dtSum: int, dnSum: int, cap: nat) {
    ghost predicate InBounds() {
      |ts| == MAX_SMOOTH == |ns| && head < cap <= MAX_SMOOTH && size <= cap
    }
  }

  /**
   The circular arrays hold the last samples of the history in order, as many as there
   are slots for, and the cached sums are their sums.
   */
  ghost predicate RingOk(r: Ring, h: History) {
    && r.InBounds()
    && |h.dts| == |h.dns| && r.size == WindowSize(|h.dns|, r.cap)
    && Holds(r.ts, r.head, r.cap, h.dts, r.size)
    && Holds(r.ns, r.head, r.cap, h.dns, r.size)
    && r.dtSum == SumRange(h.dts, |h.dts| - r.size, |h.dts|)
    && r.dnSum == SumRange(h.dns, |h.dns| - r.size, |h.dns|)
    && (r.size < r.cap ==> r.head == 0)
  }

  /** A full ring with its oldest entry overwritten. */
  ghost function Replaced(r: Ring, dt: int, dn: int): Ring
    requires r.InBounds()
  {
    Ring(r.ts[r.head := dt], r.ns[r.head := dn], Slot(r.head, 1, r.cap), r.size,
         r.dtSum - r.ts[r.head] + dt, r.dnSum - r.ns[r.head] + dn, r.cap)
  }

  /** A ring with room for one more entry, and that entry in it. */
  ghost function Appended(r: Ring, dt: int, dn: int): Ring
    requires r.InBounds()
  {
    var k := Slot(r.head, r.size, r.cap);
    Ring(r.ts[k := dt], r.ns[k := dn], r.head, r.size + 1, r.dtSum + dt, r.dnSum + dn, r.cap)
  }

  lemma ReplacedOk(r: Ring, h: History, dt: int, dn: int, curr: int)
    requires RingOk(r, h) && r.size == r.cap
    ensures RingOk(Replaced(r, dt, dn), Noted(h, dt, dn, curr))
  {
    var lo := |h.dns| - r.size;
    SlideWindow(r.ts, r.head, r.cap, h.dts, dt);
    SlideWindow(r.ns, r.head, r.cap, h.dns, dn);
    SumStep(h.dts, dt, lo);
    SumStep(h.dns, dn, lo);
  }

  lemma AppendedOk(r: Ring, h: History, dt: int, dn: int, curr: int)
    requires RingOk(r, h) && r.size < r.cap
    ensures RingOk(Appended(r, dt, dn), Noted(h, dt, dn, curr))
  {
    ExtendWindow(r.ts, r.cap, h.dts, dt);
    ExtendWindow(r.ns, r.cap, h.dns, dn);
    SumStep(h.dts, dt, 0);
    SumStep(h.dns, dn, 0);
  }

  /** While the ring has not filled, it may be given its full capacity. */
  lemma GrownOk(r: Ring, h: History)
    requires RingOk(r, h) && (r.cap == MAX_SMOOTH || |h.dns| < r.cap)
    ensures RingOk(r.(cap := MAX_SMOOTH), h)
  {
    if r.cap != MAX_SMOOTH {
      GrowBuffer(r.ts, r.cap, MAX_SMOOTH, h.dts, r.size);
      GrowBuffer(r.ns, r.cap, MAX_SMOOTH, h.dns, r.size);
    }
  }

  /** The entry `i` places before the newest. */
  lemma FromNewest(r: Ring, h: History, i: nat)
    requires RingOk(r, h) && i < r.size
    ensures var k := Slot(r.head, r.size - 1 - i, r.cap);
            r.ns[k] == h.dns[|h.dns| - 1 - i] && r.ts[k] == h.dts[|h.dns| - 1 - i]
  {
    EntryAt(r.ns, r.head, r.cap, h.dns, r.size, |h.dns| - 1 - i);
    EntryAt(r.ts, r.head, r.cap, h.dts, r.size, |h.dts| - 1 - i);
  }

  /** The `deq_` fields of a bar: two circular arrays with cached sums. */
  class SampleRing {
    const deqT: array<int>
    const deqN: array<int>
    var deqHead: nat
    var deqSize: nat
    var deqDtSum: int
    var deqDnSum: int
    var smoothing: nat

    ghost predicate Arrays() {
      deqT.Length == MAX_SMOOTH == deqN.Length && deqT != deqN
    }

    ghost function View(): Ring
      reads this, deqT, deqN
    {
      Ring(deqT[..], deqN[..], deqHead, deqSize, deqDtSum, deqDnSum, smoothing)
    }

    ghost predicate Valid(h: History)
      reads this, deqT, deqN
    {
      Arrays() && RingOk(View(), h)
    }

    constructor ()
      ensures Valid(NoHistory) && smoothing == 50
      ensures fresh(deqT) && fresh(deqN)
    {
      deqT := new int[MAX_SMOOTH];
      deqN := new int[MAX_SMOOTH];
      deqHead, deqSize, deqDtSum, deqDnSum, smoothing := 0, 0, 0, 0, FIRST_SMOOTH;
    }

    /** Empty the window, leaving the arrays as they are. */
    method Clear()
      requires Arrays() && 0 < smoothing <= MAX_SMOOTH
      modifies this
      ensures Valid(NoHistory) && smoothing == old(smoothing)
    {
      deqHead, deqSize, deqDtSum, deqDnSum := 0, 0, 0, 0;
    }

    /** The branch for a full ring: the oldest sample gives way and the head moves on. */
    method ReplaceOldest(dt: int, dn: int)
      requires Arrays() && View().InBounds()
      modifies this, deqT, deqN
      ensures View() == Replaced(old(View()), dt, dn)
    {
      deqDtSum := deqDtSum - deqT[deqHead];
      deqDnSum := deqDnSum - deqN[deqHead];
      deqT[deqHead] := dt;
      deqN[deqHead] := dn;
      deqDtSum := deqDtSum + dt;
      deqDnSum := deqDnSum + dn;
      deqHead := SlotIndex(deqHead, 1, smoothing);
    }

    /** The branch for a ring with room. */
    method AppendNewest(dt: int, dn: int)
      requires Arrays() && View().InBounds()
      modifies this, deqT, deqN
      ensures View() == Appended(old(View()), dt, dn)
    {
      var slot := SlotIndex(deqHead, deqSize, smoothing);
      deqT[slot] := dt;
      deqN[slot] := dn;
      deqDtSum := deqDtSum + dt;
      deqDnSum := deqDnSum + dn;
      deqSize := deqSize + 1;
    }

    /** Push one sample, dropping the oldest when the buffer is full. */
    method Push(ghost h: History, dt: int, dn: int, ghost curr: int)
      requires Valid(h)
      modifies this, deqT, deqN
      ensures Valid(Noted(h, dt, dn, curr)) && smoothing == old(smoothing)
    {
      ghost var r := View();
      if deqSize == smoothing {
        ReplacedOk(r, h, dt, dn, curr);
        ReplaceOldest(dt, dn);
      } else {
        AppendedOk(r, h, dt, dn, curr);
        AppendNewest(dt, dn);
      }
      assert smoothing == View().cap;
    }

    /** The buffer gets its full size while it has not wrapped. */
    method Grow(ghost h: History)
      requires Valid(h) && (smoothing == MAX_SMOOTH || |h.dns| < smoothing)
      modifies this`smoothing
      ensures Valid(h) && smoothing == MAX_SMOOTH
    {
      ghost var r := View();
      GrownOk(r, h);
      smoothing := MAX_SMOOTH;
      assert View() == r.(cap := MAX_SMOOTH);
    }

    /** One sample, and the full size when it is due. */
    method PushAndGrow(ghost h: History, dt: int, dn: int, ghost curr: int, grow: bool)
      requires Valid(h) && (grow ==> smoothing == MAX_SMOOTH || |h.dns| + 1 < smoothing)
      modifies this, deqT, deqN
      ensures Valid(Noted(h, dt, dn, curr)) && smoothing == if grow then MAX_SMOOTH else old(smoothing)
    {
      Push(h, dt, dn, curr);
      if grow {
        Grow(Noted(h, dt, dn, curr));
      }
    }

    /** The averaging loop visits the window from the newest entry to the oldest. */
    method AverageRate(atZero: real, ghost h: History) returns (avg: real)
      requires Valid(h) && deqSize > 0
      ensures avg == Ema(atZero, h.dns, h.dts, |h.dns| - deqSize)
    {
      var size := deqSize;
      avg := Newest(atZero, h);
      var i := 1;
      while i < size
        invariant 1 <= i <= size
        invariant avg == Ema(atZero, h.dns, h.dts, |h.dns| - i)
      {
        avg := MixIn(atZero, h, i, avg);
        i := i + 1;
      }
    }

    /** The average starts with the newest entry alone. */
    method Newest(atZero: real, ghost h: History) returns (avg: real)
      requires Valid(h) && deqSize > 0
      ensures avg == Ema(atZero, h.dns, h.dts, |h.dns| - 1)
    {
      avg := RateOf(atZero, h, 0);
    }

    /** One round of the averaging loop. */
    method MixIn(atZero: real, ghost h: History, i: nat, avg: real) returns (mixed: real)
      requires Valid(h) && 1 <= i < deqSize
      requires avg == Ema(atZero, h.dns, h.dts, |h.dns| - i)
      ensures mixed == Ema(atZero, h.dns, h.dts, |h.dns| - 1 - i)
    {
      var r := RateOf(atZero, h, i);
      EmaStep(atZero, h.dns, h.dts, |h.dns| - 1 - i, r, avg);
      mixed := 0.1 * r + 0.9 * avg;
    }

    /** The rate of the entry `i` places before the newest. */
    method RateOf(atZero: real, ghost h: History, i: nat) returns (r: real)
      requires Valid(h) && i < deqSize
      ensures r == SampleRate(h.dns[|h.dns| - 1 - i], h.dts[|h.dns| - 1 - i], atZero)
    {
      var idx := SlotFromNewest(deqHead, deqSize, i, smoothing);
      FromNewest(View(), h, i);
      r := SampleRate(deqN[idx], deqT[idx], atZero);
    }
  }

  /** A bar: the sample ring, the progress shown, and the guard. */
  class ProgressBar {
    const ring: SampleRing
    var tFirst: nat
    var tOld: nat
    var nOld: int
    var nUpdates: nat
    var periodPower: nat
    var lastDivRes: nat
    ghost var past: History

    /** Ring, history and counters agree. */
    ghost predicate Valid()
      reads this, ring, ring.deqT, ring.deqN
    {
      ring.Valid(past) && CountsOk(past, nOld, nUpdates, ring.smoothing)
    }

    /** The guard's memory matches the progress shown. */
    ghost predicate Synced()
      reads this
    {
      nOld >= 0 && lastDivRes == Shifted(nOld, periodPower)
    }

    /** The guard's memory is not behind the progress shown; unlike `Synced`, a reset keeps this. */
    ghost predicate Ahead()
      reads this
    {
      nOld >= 0 && lastDivRes >= Shifted(nOld, periodPower)
    }

    constructor (now: nat)
      ensures Valid() && Synced() && fresh(ring) && fresh(ring.deqT) && fresh(ring.deqN)
      ensures past == NoHistory && tOld == now && tFirst == now
    {
      ring := new SampleRing();
      tFirst, tOld, nOld := now, now, 0;
      nUpdates, periodPower, lastDivRes := 0, 0, 0;
      past := NoHistory;
    }

    /**
     `reset`: the window is emptied, but the guard keeps the value it had, so the two
     agree afterwards exactly when that value was zero.
     */
    method Reset(now: nat)
      requires Valid()
      modifies this, ring
      ensures Valid() && past == NoHistory
      ensures tOld == now && tFirst == now
      ensures lastDivRes == old(lastDivRes) && periodPower == 0 && ring.smoothing == old(ring.smoothing)
      ensures Ahead() && (Synced() <==> old(lastDivRes) == 0)
    {
      tFirst, tOld, nOld := now, now, 0;
      periodPower, nUpdates := 0, 0;
      past := NoHistory;
      ring.Clear();
    }

    /** The plain fields after a sample; the ring already holds it. */
    method Note(curr: nat, now: nat)
      requires tOld <= now
      modifies this`past, this`nUpdates, this`nOld, this`tOld, this`lastDivRes
      ensures Synced()
      ensures past == Noted(old(past), now - old(tOld), curr - old(nOld), curr)
      ensures nUpdates == old(nUpdates) + 1 && nOld == curr && tOld == now
    {
      lastDivRes := Shifted(curr, periodPower);
      past := Noted(past, now - tOld, curr - nOld, curr);
      nUpdates := nUpdates + 1;
      nOld := curr;
      tOld := now;
    }

    /** An accepted update becomes the newest sample; after ten of them the ring gets its full size. */
    method TakeSample(curr: nat, now: nat)
      requires Valid() && tOld <= now
      modifies this`past, this`nUpdates, this`nOld, this`tOld, this`lastDivRes, ring, ring.deqT, ring.deqN
      ensures Valid() && Synced() && nOld == curr && tOld == now
      ensures past == Noted(old(past), now - old(tOld), curr - old(nOld), curr)
    {
      var dt := now - tOld;
      var dn := curr - nOld;
      NotedCounts(past, nOld, nUpdates, ring.smoothing, dt, curr);
      ring.PushAndGrow(past, dt, dn, curr, nUpdates + 1 > 10);
      ghost var r := ring.View();
      Note(curr, now);
      assert ring.View() == r;
    }

    /** Recompute the period, and the guard's memory with it. */
    method Rescale(curr: nat, elapsed: nat)
      requires Valid()
      modifies this`periodPower, this`lastDivRes
      ensures Valid()
      ensures IsPeriodPower(periodPower, RawPeriod(curr, elapsed))
      ensures lastDivRes == Shifted(curr, periodPower)
    {
      periodPower := PeriodPower(RawPeriod(curr, elapsed));
      lastDivRes := Shifted(curr, periodPower);
    }

    /** What `format_line` does with an update that passed the guard. */
    method AcceptUpdate(curr: nat, now: nat)
      requires Valid() && tOld <= now && tFirst <= now
      modifies this`past, this`nUpdates, this`nOld, this`tOld, this`periodPower, this`lastDivRes,
               ring, ring.deqT, ring.deqN
      ensures Valid() && Synced() && nOld == curr && tOld == now
      ensures past == Noted(old(past), now - old(tOld), curr - old(nOld), curr)
      ensures nUpdates <= 10 ==> periodPower == old(periodPower)
      ensures nUpdates > 10 ==> IsPeriodPower(periodPower, RawPeriod(curr, now - tFirst))
    {
      TakeSample(curr, now);
      if nUpdates > 10 {
        Rescale(curr, now - tFirst);
      }
    }

    /**
     `format_line` up to the drawing. A refused update changes nothing; an accepted one
     becomes the newest sample and brings the guard's memory in line with it.
     */
    method FormatLine(curr: nat, tot: int, now: nat) returns (drawn: bool)
      requires Valid() && tOld <= now && tFirst <= now
      modifies this, ring, ring.deqT, ring.deqN
      ensures Valid() && tFirst == old(tFirst)
      ensures drawn == Accepts(curr, tot, old(periodPower), old(lastDivRes))
      ensures drawn <==> curr == tot || curr >= (old(lastDivRes) + 1) * Pow2(old(periodPower))
      ensures !drawn ==>
                && past == old(past) && periodPower == old(periodPower) && lastDivRes == old(lastDivRes)
                && tOld == old(tOld) && nOld == old(nOld)
      ensures drawn ==>
                && past == Noted(old(past), now - old(tOld), curr - old(nOld), curr)
                && tOld == now && nOld == curr && Synced()
      ensures drawn && nUpdates <= 10 ==> periodPower == old(periodPower)
      ensures drawn && nUpdates > 10 ==> IsPeriodPower(periodPower, RawPeriod(curr, now - tFirst))
    {
      var curDiv := Shifted(curr, periodPower);
      GuardMeans(curr, periodPower, lastDivRes);
      if curDiv <= lastDivRes && curr != tot {
        return false;
      }
      AcceptUpdate(curr, now);
      return true;
    }

    /**
     The cached sums are those of the last 75 updates, or of all of them while there are
     fewer, and the cached progress is the value shown minus the one at the window start.
     */
    lemma WindowIsLastUpdates()
      requires Valid()
      ensures var n, w := |past.dns|, if |past.dns| <= 75 then |past.dns| else 75;
              && ring.deqSize == w && |past.dts| == n && |past.values| == n + 1
              && ring.deqDtSum == SumRange(past.dts, n - w, n)
              && ring.deqDnSum == SumRange(past.dns, n - w, n) == nOld - past.values[n - w]
    {
      WindowTelescopes(past.values, past.dns, |past.dns| - ring.deqSize, |past.dns|);
    }
  }

  /** Values only rise, except where one is the end value given with it. */
  ghost predicate RisesTo(values: seq<int>, ends: seq<int>) {
    |values| == |ends| + 1 && forall i :: 0 <= i < |ends| ==> RisesAt(values, ends, i)
  }

  ghost predicate RisesAt(values: seq<int>, ends: seq<int>, i: int)
    requires |values| == |ends| + 1 && 0 <= i < |ends|
  {
    values[i] < values[i + 1] || values[i + 1] == ends[i]
  }

  /** The updates between two resets, with the end value each of them came with. */
  datatype Epoch = Epoch(history: History, ends: seq<int>)

  /** The finished epochs, and the end values of the current one. */
  datatype Trail = Trail(earlier: seq<Epoch>, ends: seq<int>)

  ghost predicate AllRise(es: seq<Epoch>) {
    forall i :: 0 <= i < |es| ==> RisesTo(es[i].history.values, es[i].ends)
  }

  /** How many updates the epochs hold together. */
  ghost function Taken(es: seq<Epoch>): nat {
    if es == [] then 0 else Taken(es[..|es| - 1]) + |es[|es| - 1].ends|
  }

  /** What happens to a bar at a time: an update towards an end value, or a reset. */
  datatype Event = Update(curr: nat, tot: int, now: nat) | Restart(now: nat)

  /** One update of a bar: the values since the last reset go on rising. */
  method DriveOne(bar: ProgressBar, curr: nat, tot: int, now: nat, ghost ends: seq<int>) returns (drawn: bool)
    requires bar.Valid() && bar.Ahead() && RisesTo(bar.past.values, ends)
    requires bar.tFirst <= bar.tOld <= now
    modifies bar, bar.ring, bar.ring.deqT, bar.ring.deqN
    ensures bar.ring.deqSize == WindowSize(|bar.past.dns|, MAX_SMOOTH)
    ensures bar.Valid() && bar.Ahead() && RisesTo(bar.past.values, if drawn then ends + [tot] else ends)
    ensures bar.tFirst <= bar.tOld <= now
    ensures drawn || old(bar.Synced()) ==> bar.Synced()
  {
    ghost var shown, values := bar.nOld, bar.past.values;
    if curr != tot && Accepts(curr, tot, bar.periodPower, bar.lastDivRes) {
      AcceptedMeansProgress(curr, tot, bar.periodPower, bar.lastDivRes, shown);
    }
    RiseGoesOn(values, ends, curr, tot);
    drawn := bar.FormatLine(curr, tot, now);
    bar.WindowIsLastUpdates();
  }

  lemma RiseGoesOn(values: seq<int>, ends: seq<int>, curr: int, tot: int)
    requires RisesTo(values, ends)
    ensures values[|ends|] < curr || curr == tot ==> RisesTo(values + [curr], ends + [tot])
  {
    forall i | 0 <= i < |ends|
      ensures RisesAt(values + [curr], ends + [tot], i)
    {
      assert RisesAt(values, ends, i);
    }
  }

  /** The events from the `i`-th on come in the order of time, none before `from`. */
  predicate InOrder(from: nat, es: seq<Event>, i: nat)
    requires i <= |es|
    decreases |es| - i
  {
    i == |es| || (from <= es[i].now && InOrder(es[i].now, es, i + 1))
  }

  lemma InOrderEarlier(a: nat, b: nat, es: seq<Event>, i: nat)
    requires a <= b && i <= |es| && InOrder(b, es, i)
    ensures InOrder(a, es, i)
  {
  }

  /** A bar with its trail: values rise in every epoch, and `drawn` updates were accepted in all. */
  ghost predicate Driven(bar: ProgressBar, trail: Trail, drawn: int)
    reads bar, bar.ring, bar.ring.deqT, bar.ring.deqN
  {
    && bar.Valid() && bar.Ahead() && bar.tFirst <= bar.tOld
    && (bar.past.dns != [] ==> bar.Synced())
    && RisesTo(bar.past.values, trail.ends) && AllRise(trail.earlier)
    && drawn == Taken(trail.earlier) + |bar.past.dns|
    && bar.ring.deqSize == WindowSize(|bar.past.dns|, MAX_SMOOTH)
  }

  /** One event: an update goes on with the current epoch, a reset closes it. */
  method DriveEvent(bar: ProgressBar, e: Event, drawn: nat, ghost trail: Trail)
    returns (count: nat, ghost after: Trail)
    requires Driven(bar, trail, drawn) && bar.tOld <= e.now
    modifies bar, bar.ring, bar.ring.deqT, bar.ring.deqN
    ensures Driven(bar, after, count) && bar.tOld <= e.now
    ensures |after.earlier| == |trail.earlier| + (if e.Restart? then 1 else 0)
    ensures old(bar.Synced()) && e.Update? ==> bar.Synced()
  {
    count, after := drawn, trail;
    match e
    case Update(curr, tot, now) =>
      var shown := DriveOne(bar, curr, tot, now, trail.ends);
      if shown {
        count := drawn + 1;
        after := trail.(ends := trail.ends + [tot]);
      }
    case Restart(now) =>
      after := Trail(trail.earlier + [Epoch(bar.past, trail.ends)], []);
      bar.Reset(now);
      bar.WindowIsLastUpdates();
  }

  /** How many of the first `n` events are resets. */
  ghost function Restarts(es: seq<Event>, n: nat): nat
    requires n <= |es|
  {
    if n == 0 then 0 else Restarts(es, n - 1) + (if es[n - 1].Restart? then 1 else 0)
  }

  /**
   A bar fed with any updates and resets: between two resets the values it takes rise
   strictly except where one is its end value, although a reset leaves the guard behind.
   The guard is always in step on a bar that is never reset, and otherwise from the first
   accepted update after a reset on; the window is always the last 75 updates since then.
   */
  method Drive(bar: ProgressBar, events: seq<Event>, drawn: nat, ghost ends: seq<int>)
    returns (count: nat, ghost trail: Trail)
    requires Driven(bar, Trail([], ends), drawn) && InOrder(bar.tOld, events, 0)
    modifies bar, bar.ring, bar.ring.deqT, bar.ring.deqN
    ensures Driven(bar, trail, count) && |trail.earlier| == Restarts(events, |events|)
    ensures Restarts(events, |events|) == 0 && old(bar.Synced()) ==> bar.Synced()
  {
    count, trail := drawn, Trail([], ends);
    ghost var synced := bar.Synced();
    var i := 0;
    while i < |events|
      invariant 0 <= i <= |events|
      invariant Driven(bar, trail, count)
      invariant |trail.earlier| == Restarts(events, i) && InOrder(bar.tOld, events, i)
      invariant Restarts(events, i) == 0 && synced ==> bar.Synced()
    {
      count, trail := DriveEvent(bar, events[i], count, trail);
      InOrderEarlier(bar.tOld, events[i].now, events, i + 1);
      i := i + 1;
    }
  }
}
