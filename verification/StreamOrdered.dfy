/**
 On a channel that keeps order and loses nothing: exactly which intervals a receiver
 reports. An interval narrower than the reorder threshold may still be noticed, by a later
 block that carries it.
 */
module StreamOrdered {
  import opened StreamModel
  import opened StreamSystem
  import opened StreamInvariants
  import opened StreamReports
  import opened StreamTheorems

  /** Block `i` carries interval `j` and lies far enough past its start, or is the very first block. */
  ghost predicate NoticedBy(b: Bounds, w: seq<Sent>, i: int, j: int)
    requires 0 <= i < |w| && 1 <= j < |b.datagrams|
  {
    w[i].carried == j && (i == 0 || b.datagrams[j - 1] + REORDER_THRESHOLD < w[i].block.hdr.seqno)
  }

  /** One of the first `d` blocks makes interval `j` noticeable. */
  ghost predicate Noticed(b: Bounds, w: seq<Sent>, d: int, j: int)
    requires 0 <= d <= |w| && 1 <= j < |b.datagrams|
  {
    exists i :: 0 <= i < d && NoticedBy(b, w, i, j)
  }

  ghost predicate AllNoticed(b: Bounds, w: seq<Sent>, d: int, k: int)
    requires 0 <= d <= |w| && k < |b.datagrams|
  {
    forall j :: 1 <= j <= k ==> Noticed(b, w, d, j)
  }

  /** The first `k` reports are those of the intervals 1 to `k`. */
  ghost predicate StartsWith(rs: seq<Report>, k: int) {
    k <= |rs| && forall i :: 0 <= i < k ==> rs[i].number == i + 1
  }

  // ---------------------------------------------------------------- the invariant

  /** The boundary the receiver stood at before its report `r`. */
  ghost function Base(b: Bounds, rs: seq<Report>, r: int): int
    requires 0 <= r <= |rs| && InBounds(b, rs)
  {
    if r == 0 then 0 else b.datagrams[rs[r - 1].number]
  }

  /** Report `r` was triggered by block `i`. */
  ghost predicate TriggeredBy(b: Bounds, w: seq<Sent>, rs: seq<Report>, r: int, i: int)
    requires 0 <= r < |rs| && 0 <= i < |w| && InBounds(b, rs)
  {
    && w[i].carried == rs[r].number
    && (i == 0 || Base(b, rs, r) + REORDER_THRESHOLD < w[i].block.hdr.seqno)
  }

  ghost predicate InBounds(b: Bounds, rs: seq<Report>) {
    forall i :: 0 <= i < |rs| ==> 1 <= rs[i].number < |b.datagrams|
  }

  ghost predicate HasTrigger(b: Bounds, w: seq<Sent>, d: int, rs: seq<Report>, r: int)
    requires 0 <= d <= |w| && InBounds(b, rs) && 0 <= r < |rs|
  {
    exists i :: 0 <= i < d && TriggeredBy(b, w, rs, r, i)
  }

  ghost predicate AllTriggered(b: Bounds, w: seq<Sent>, d: int, rs: seq<Report>)
    requires 0 <= d <= |w| && InBounds(b, rs)
  {
    forall r :: 0 <= r < |rs| ==> HasTrigger(b, w, d, rs, r)
  }

  /** Reports name intervals some block has carried, and whatever was noticed in a row was reported. */
  ghost predicate ReportedInv(b: Bounds, w: seq<Sent>, d: int, rs: seq<Report>)
    requires 0 <= d <= |w|
  {
    && InBounds(b, rs) && AllTriggered(b, w, d, rs)
    && (forall r :: 0 <= r < |rs| ==> rs[r].number <= CarriedBefore(w, d))
    && (forall k :: 0 <= k < |b.datagrams| && AllNoticed(b, w, d, k) ==> StartsWith(rs, k))
  }

  ghost predicate OrderInv(s: System) {
    s.fifo && !s.rx.rcv.finReceived && s.rx.delivered <= |s.tx.wire| ==>
      && (s.rx.delivered == 0 <==> s.rx.rcv.lastGrp == -1)
      && ReportedInv(s.tx.bounds, s.tx.wire, s.rx.delivered, s.rx.reports)
  }

  // --------------------------------------------------------------- carried intervals

  /** Along the wire the carried intervals never go back. */
  lemma {:induction false} CarriedRises(t: Tx, i: int, j: int)
    requires WireInv(t) && 0 <= i <= j < |t.wire| && !t.wire[j].block.hdr.last
    ensures 0 <= t.wire[i].carried <= t.wire[j].carried
    decreases j - i
  {
    assert WireBlockOk(t, j);
    if i < j {
      assert WireBlockOk(t, j - 1);
      CarriedRises(t, i, j - 1);
    }
  }

  // -------------------------------------------------------------------- one arrival

  /** The receiver that stands at the interval before `k` notices a block as `NoticedBy` says. */
  lemma NoticedIsNew(b: Bounds, m: Marks, n: int, w: seq<Sent>, i: int, k: int, r: Receiver)
    requires Tiling(b, n) && 0 <= i < |w| && 1 <= k <= n && w[i].carried == k
    requires StampOk(b, m, n, w[i].block.hdr, w[i].cnt, k) && NoticedBy(b, w, i, k)
    requires StandsAt(r, b, k - 1) && (i == 0 ==> r.lastGrp == -1)
    ensures HasNewGrpId(r, w[i].block.hdr.grp, w[i].block.hdr.seqno) && w[i].block.hdr.hasInterval
  {
  }

  /** One more block notices at most the interval it carries. */
  lemma NoticedBefore(b: Bounds, w: seq<Sent>, d: int, k: int)
    requires 0 <= d < |w| && 0 <= k < |b.datagrams| && k < w[d].carried && AllNoticed(b, w, d + 1, k)
    ensures AllNoticed(b, w, d, k)
  {
    forall j | 1 <= j <= k
      ensures Noticed(b, w, d, j)
    {
      assert Noticed(b, w, d + 1, j);
    }
  }

  /** A run of reports 1, 2, ... that rises and does not pass `k` either includes `k` or stops before it. */
  lemma RisingReports(rs: seq<Report>, k: int)
    requires Increasing(rs) && 1 <= k && StartsWith(rs, k - 1)
    requires forall r :: 0 <= r < |rs| ==> 1 <= rs[r].number <= k
    ensures StartsWith(rs, k) || NumberedUpTo(rs, k - 1)
  {
    if |rs| >= k {
      assert k >= 2 ==> rs[k - 2].number < rs[k - 1].number;
      assert 1 <= rs[k - 1].number <= k;
    }
  }

  /** A data block is next on an ordered channel. */
  ghost predicate NextIsData(s: System) {
    && RxInv(s) && OrderInv(s) && s.fifo && CanDeliver(s, s.rx.delivered)
    && !s.tx.wire[s.rx.delivered].block.hdr.last
  }

  /** The reports after the next block has arrived; `r` stands for the one it may cause. */
  ghost predicate ReportsAfter(s: System, r: Report, rs: seq<Report>)
    requires NextIsData(s)
  {
    var m := s.tx.wire[s.rx.delivered];
    r.number == m.carried && rs == if Reports(s.rx.rcv, m.block) then s.rx.reports + [r] else s.rx.reports
  }

  lemma NoticedIsReported(s: System, r: Report, rs: seq<Report>, k: int)
    requires NextIsData(s) && ReportsAfter(s, r, rs)
    requires 0 <= k < |s.tx.bounds.datagrams| && AllNoticed(s.tx.bounds, s.tx.wire, s.rx.delivered + 1, k)
    ensures StartsWith(rs, k)
  {
    var d, b, w := s.rx.delivered, s.tx.bounds, s.tx.wire;
    if AllNoticed(b, w, d, k) {
      assert StartsWith(s.rx.reports, k);
      PrefixGrows(s.rx.reports, r, rs, k);
    } else {
      NoticedLast(s.tx, d, k);
      NoticedNow(s, r, rs, k);
    }
  }

  /** What the block at `d` makes noticeable is the interval it carries, the latest so far. */
  lemma NoticedLast(t: Tx, d: int, k: int)
    requires WireInv(t) && 0 <= d < |t.wire| && !t.wire[d].block.hdr.last && 0 <= k < |t.bounds.datagrams|
    requires AllNoticed(t.bounds, t.wire, d + 1, k) && !AllNoticed(t.bounds, t.wire, d, k)
    ensures k >= 1 && NoticedBy(t.bounds, t.wire, d, k)
  {
    var b, w := t.bounds, t.wire;
    var j :| 1 <= j <= k && !Noticed(b, w, d, j);
    assert Noticed(b, w, d + 1, j);
    assert NoticedBy(b, w, d, j);
    assert Noticed(b, w, d + 1, k);
    var i :| 0 <= i < d + 1 && NoticedBy(b, w, i, k);
    CarriedRises(t, i, d);
  }

  lemma NoticedNow(s: System, r: Report, rs: seq<Report>, k: int)
    requires NextIsData(s) && ReportsAfter(s, r, rs)
    requires 1 <= k < |s.tx.bounds.datagrams| && AllNoticed(s.tx.bounds, s.tx.wire, s.rx.delivered + 1, k)
    requires NoticedBy(s.tx.bounds, s.tx.wire, s.rx.delivered, k)
    ensures StartsWith(rs, k)
  {
    ReportedSoFar(s, k);
    if NumberedUpTo(s.rx.reports, k - 1) {
      NoticedReports(s, k);
      assert rs == s.rx.reports + [r];
    }
    PrefixGrows(s.rx.reports, r, rs, k);
  }

  lemma PrefixGrows(before: seq<Report>, r: Report, rs: seq<Report>, k: int)
    requires rs == before || rs == before + [r]
    requires StartsWith(before, k) || (NumberedUpTo(before, k - 1) && rs == before + [r] && r.number == k)
    ensures StartsWith(rs, k)
  {
  }

  /** Everything before `k` has been reported. */
  lemma ReportedSoFar(s: System, k: int)
    requires NextIsData(s) && 1 <= k < |s.tx.bounds.datagrams|
    requires s.tx.wire[s.rx.delivered].carried == k
    requires AllNoticed(s.tx.bounds, s.tx.wire, s.rx.delivered + 1, k)
    ensures StartsWith(s.rx.reports, k) || NumberedUpTo(s.rx.reports, k - 1)
  {
    var d, b, w := s.rx.delivered, s.tx.bounds, s.tx.wire;
    assert WireBlockOk(s.tx, d);
    NoticedBefore(b, w, d, k - 1);
    assert StartsWith(s.rx.reports, k - 1);
    RisingReports(s.rx.reports, k);
  }

  lemma NoticedReports(s: System, k: int)
    requires NextIsData(s) && 1 <= k < |s.tx.bounds.datagrams| && NumberedUpTo(s.rx.reports, k - 1)
    requires NoticedBy(s.tx.bounds, s.tx.wire, s.rx.delivered, k)
    ensures Reports(s.rx.rcv, s.tx.wire[s.rx.delivered].block)
  {
    var d, b, w := s.rx.delivered, s.tx.bounds, s.tx.wire;
    assert WireBlockOk(s.tx, d);
    PositionFromReports(s.rx, b, s.tx.marks, k - 1);
    NoticedIsNew(b, s.tx.marks, s.tx.report.snapshotCnt, w, d, k, s.rx.rcv);
  }

  /** Earlier reports keep their triggers. */
  lemma TriggersStay(b: Bounds, w: seq<Sent>, d: int, e: int, rs: seq<Report>, more: seq<Report>)
    requires 0 <= d <= e <= |w| && rs <= more && InBounds(b, more)
    requires InBounds(b, rs) && AllTriggered(b, w, d, rs)
    ensures forall r :: 0 <= r < |rs| ==> HasTrigger(b, w, e, more, r)
  {
    forall r | 0 <= r < |rs|
      ensures HasTrigger(b, w, e, more, r)
    {
      assert HasTrigger(b, w, d, rs, r);
      var i :| 0 <= i < d && TriggeredBy(b, w, rs, r, i);
      assert TriggeredBy(b, w, more, r, i);
    }
  }

  /** A further report is triggered by the block that just arrived. */
  lemma AppendTrigger(b: Bounds, w: seq<Sent>, d: int, rs: seq<Report>, r: Report)
    requires 0 <= d < |w| && InBounds(b, rs) && AllTriggered(b, w, d, rs)
    requires 1 <= r.number == w[d].carried < |b.datagrams|
    requires d == 0 || Base(b, rs, |rs|) + REORDER_THRESHOLD < w[d].block.hdr.seqno
    ensures InBounds(b, rs + [r]) && AllTriggered(b, w, d + 1, rs + [r])
  {
    var more, n := rs + [r], |rs|;
    assert InBounds(b, more);
    TriggersStay(b, w, d, d + 1, rs, more);
    assert n > 0 ==> more[n - 1] == rs[n - 1];
    assert TriggeredBy(b, w, more, n, d);
    assert HasTrigger(b, w, d + 1, more, n);
  }

  /** The receiver stands where its last report put it. */
  lemma PositionIsBase(x: Rx, b: Bounds, m: Marks)
    requires PositionInv(x, b, m) && InBounds(b, x.reports)
    ensures x.rcv.lastChanged == Base(b, x.reports, |x.reports|)
  {
  }

  /** A block that is reported lies far enough past the boundary, or is the first. */
  lemma ReportsFarEnough(s: System)
    requires NextIsData(s) && Reports(s.rx.rcv, s.tx.wire[s.rx.delivered].block)
    ensures var d, b, w := s.rx.delivered, s.tx.bounds, s.tx.wire;
            && InBounds(b, s.rx.reports) && 1 <= w[d].carried < |b.datagrams|
            && (d == 0 || Base(b, s.rx.reports, |s.rx.reports|) + REORDER_THRESHOLD < w[d].block.hdr.seqno)
  {
    DataArrival(s, s.rx.delivered);
    PositionIsBase(s.rx, s.tx.bounds, s.tx.marks);
  }

  /** All reports have their triggers after one more block, whether or not it was reported. */
  lemma TriggersAfter(b: Bounds, w: seq<Sent>, d: int, rs: seq<Report>, r: Report, more: seq<Report>)
    requires 0 <= d < |w| && InBounds(b, rs) && AllTriggered(b, w, d, rs)
    requires more == rs || (more == rs + [r] && 1 <= r.number == w[d].carried < |b.datagrams|
                            && (d == 0 || Base(b, rs, |rs|) + REORDER_THRESHOLD < w[d].block.hdr.seqno))
    ensures InBounds(b, more) && AllTriggered(b, w, d + 1, more)
  {
    if more == rs {
      TriggersStay(b, w, d, d + 1, rs, rs);
    } else {
      AppendTrigger(b, w, d, rs, r);
    }
  }

  lemma TriggersSoFar(s: System)
    requires NextIsData(s)
    ensures InBounds(s.tx.bounds, s.rx.reports)
    ensures AllTriggered(s.tx.bounds, s.tx.wire, s.rx.delivered, s.rx.reports)
  {
  }

  lemma DataKeepsTriggers(s: System, r: Report, rs: seq<Report>)
    requires NextIsData(s) && ReportsAfter(s, r, rs)
    ensures InBounds(s.tx.bounds, rs) && AllTriggered(s.tx.bounds, s.tx.wire, s.rx.delivered + 1, rs)
  {
    TriggersSoFar(s);
    if Reports(s.rx.rcv, s.tx.wire[s.rx.delivered].block) {
      ReportsFarEnough(s);
    }
    TriggersAfter(s.tx.bounds, s.tx.wire, s.rx.delivered, s.rx.reports, r, rs);
  }

  lemma DataKeepsNumbers(s: System, r: Report, rs: seq<Report>)
    requires NextIsData(s) && ReportsAfter(s, r, rs)
    ensures forall i :: 0 <= i < |rs| ==> rs[i].number <= CarriedBefore(s.tx.wire, s.rx.delivered + 1)
  {
    var d, w := s.rx.delivered, s.tx.wire;
    assert WireBlockOk(s.tx, d);
    assert CarriedBefore(w, d) <= w[d].carried == CarriedBefore(w, d + 1);
  }

  lemma DataKeepsReported(s: System, r: Report, rs: seq<Report>)
    requires NextIsData(s) && ReportsAfter(s, r, rs)
    ensures ReportedInv(s.tx.bounds, s.tx.wire, s.rx.delivered + 1, rs)
  {
    var e, b, w := s.rx.delivered + 1, s.tx.bounds, s.tx.wire;
    DataKeepsTriggers(s, r, rs);
    DataKeepsNumbers(s, r, rs);
    forall k | 0 <= k < |b.datagrams| && AllNoticed(b, w, e, k)
      ensures StartsWith(rs, k)
    {
      NoticedIsReported(s, r, rs, k);
    }
  }

  lemma DataKeepsOrder(s: System, ack: bool)
    requires NextIsData(s)
    ensures OrderInv(s.(rx := Arrive(s.rx, s.tx.wire[s.rx.delivered], ack)))
  {
    var m := s.tx.wire[s.rx.delivered];
    assert WireBlockOk(s.tx, s.rx.delivered);
    ArrivalCounts(s.rx, m, ack);
    ColourRemembered(s.rx, m, ack);
    OrderAfter(s, NewReport(s.rx, m), Arrive(s.rx, m, ack));
  }

  lemma OrderAfter(s: System, r: Report, y: Rx)
    requires NextIsData(s) && ReportsAfter(s, r, y.reports)
    requires y.delivered == s.rx.delivered + 1 && y.rcv.lastGrp != -1
    ensures OrderInv(s.(rx := y))
  {
    DataKeepsReported(s, r, y.reports);
  }

  lemma DeliverKeepsOrder(s: System, i: nat, ack: bool)
    requires RxInv(s) && OrderInv(s)
    ensures OrderInv(Apply(s, Deliver(i, ack)))
  {
    if s.fifo && CanDeliver(s, i) {
      if s.tx.wire[i].block.hdr.last {
        FinArrivalKeeps(s, i, ack);
      } else {
        DataKeepsOrder(s, ack);
      }
    }
  }

  lemma ColourRemembered(x: Rx, m: Sent, ack: bool)
    requires x.rcv.recorder.Valid() && m.block.hdr.grp >= 0
    ensures Arrive(x, m, ack).rcv.lastGrp != -1
  {
  }

  // --------------------------------------------------------------- the sender's steps

  lemma GrowthKeepsNoticed(b: Bounds, c: Bounds, w: seq<Sent>, v: seq<Sent>, d: int, k: int)
    requires b.datagrams <= c.datagrams && w <= v && 0 <= d <= |w| && 0 <= k < |b.datagrams|
    ensures AllNoticed(c, v, d, k) ==> AllNoticed(b, w, d, k)
  {
    if AllNoticed(c, v, d, k) {
      forall j | 1 <= j <= k
        ensures Noticed(b, w, d, j)
      {
        assert Noticed(c, v, d, j);
        var i :| 0 <= i < d && NoticedBy(c, v, i, j);
        assert NoticedBy(b, w, i, j);
      }
    }
  }

  lemma GrowthKeepsTriggers(b: Bounds, c: Bounds, w: seq<Sent>, v: seq<Sent>, d: int, rs: seq<Report>)
    requires b.datagrams <= c.datagrams && w <= v && 0 <= d <= |w|
    requires InBounds(b, rs) && AllTriggered(b, w, d, rs)
    ensures InBounds(c, rs) && AllTriggered(c, v, d, rs)
  {
    forall r | 0 <= r < |rs|
      ensures HasTrigger(c, v, d, rs, r)
    {
      assert HasTrigger(b, w, d, rs, r);
      var i :| 0 <= i < d && TriggeredBy(b, w, rs, r, i);
      assert TriggeredBy(c, v, rs, r, i);
    }
  }

  /** No delivered block carries an interval that was not over when it was sent. */
  lemma NotYetNoticed(s: System, c: Bounds, v: seq<Sent>, k: int)
    requires RxInv(s) && s.fifo && s.rx.delivered <= |s.tx.wire| && s.tx.wire <= v
    requires FinDelivered(s) && !s.rx.rcv.finReceived
    requires |s.tx.bounds.datagrams| <= k < |c.datagrams|
    ensures !AllNoticed(c, v, s.rx.delivered, k)
  {
    if AllNoticed(c, v, s.rx.delivered, k) {
      assert Noticed(c, v, s.rx.delivered, k);
      var i :| 0 <= i < s.rx.delivered && NoticedBy(c, v, i, k);
      assert WireBlockOk(s.tx, i);
      FinNotDelivered(s, i);
    }
  }

  /** Until the closing block arrives, everything delivered is a data block. */
  lemma FinNotDelivered(s: System, i: int)
    requires RxInv(s) && s.fifo && 0 <= i < s.rx.delivered <= |s.tx.wire| && !s.rx.rcv.finReceived
    requires FinDelivered(s)
    ensures !s.tx.wire[i].block.hdr.last
  {
    assert WireBlockOk(s.tx, i);
  }

  ghost predicate FinDelivered(s: System) {
    s.fifo && 0 < s.rx.delivered <= |s.tx.wire| && s.tx.wire[s.rx.delivered - 1].block.hdr.last ==>
      s.rx.rcv.finReceived
  }

  lemma SendKeepsOrder(s: System, step: TxStep)
    requires RxInv(s) && OrderInv(s) && FinDelivered(s)
    ensures OrderInv(Apply(s, Send(step)))
  {
    var t, u := s.tx, ApplyTx(s.tx, step);
    TxGrows(t, step);
    if s.fifo && !s.rx.rcv.finReceived && s.rx.delivered <= |t.wire| {
      var d := s.rx.delivered;
      assert CarriedBefore(u.wire, d) == CarriedBefore(t.wire, d);
      GrowthKeepsTriggers(t.bounds, u.bounds, t.wire, u.wire, d, s.rx.reports);
      forall k | 0 <= k < |u.bounds.datagrams| && AllNoticed(u.bounds, u.wire, d, k)
        ensures StartsWith(s.rx.reports, k)
      {
        if k < |t.bounds.datagrams| {
          GrowthKeepsNoticed(t.bounds, u.bounds, t.wire, u.wire, d, k);
        } else {
          NotYetNoticed(s, u.bounds, u.wire, k);
        }
      }
    }
  }

  lemma InitialOrder(reliable: bool, fifo: bool)
    ensures OrderInv(Initial(reliable, fifo))
  {
  }

  lemma {:induction false} OrderReachable(reliable: bool, fifo: bool, steps: seq<Step>)
    ensures OrderInv(Run(Initial(reliable, fifo), steps))
  {
    if steps == [] {
      InitialOrder(reliable, fifo);
    } else {
      var before, step := steps[..|steps| - 1], steps[|steps| - 1];
      OrderReachable(reliable, fifo, before);
      FifoReachable(reliable, fifo, before);
      StepKeepsOrder(Run(Initial(reliable, fifo), before), step);
    }
  }

  lemma StepKeepsOrder(s: System, step: Step)
    requires RxInv(s) && FifoInv(s) && OrderInv(s)
    ensures OrderInv(Apply(s, step))
  {
    match step
    case Send(t) => SendKeepsOrder(s, t);
    case Deliver(i, a) => DeliverKeepsOrder(s, i, a);
    case ReceiveFinAck =>
  }

  // --------------------------------------------------------------------- the theorem

  /**
   On an ordered, loss-free channel, until the closing block: the receiver has reported
   exactly the intervals 1, 2, ..., k, where k is the one the latest block carries, if and
   only if each of them was noticeable in some delivered block.
   */
  lemma ReportsAllIffNoticed(reliable: bool, steps: seq<Step>)
    requires !Run(Initial(reliable, true), steps).rx.rcv.finReceived
    ensures var s := Run(Initial(reliable, true), steps);
            && s.rx.delivered <= |s.tx.wire|
            && var k := CarriedBefore(s.tx.wire, s.rx.delivered);
               && k < |s.tx.bounds.datagrams|
               && (NumberedUpTo(s.rx.reports, k) <==> AllNoticed(s.tx.bounds, s.tx.wire, s.rx.delivered, k))
  {
    FifoReachable(reliable, true, steps);
    OrderReachable(reliable, true, steps);
    var s := Run(Initial(reliable, true), steps);
    var k := CarriedBefore(s.tx.wire, s.rx.delivered);
    assert k < |s.tx.bounds.datagrams|;
    if NumberedUpTo(s.rx.reports, k) {
      TriggeredMeansNoticed(s.tx.bounds, s.tx.wire, s.rx.delivered, s.rx.reports, k);
    }
    if AllNoticed(s.tx.bounds, s.tx.wire, s.rx.delivered, k) {
      FullPrefix(s, k);
    }
  }

  lemma FullPrefix(s: System, k: int)
    requires RxInv(s) && FifoInv(s) && s.fifo && s.rx.delivered <= |s.tx.wire| && !s.rx.rcv.finReceived
    requires k == CarriedBefore(s.tx.wire, s.rx.delivered) < |s.tx.bounds.datagrams|
    requires ReportedInv(s.tx.bounds, s.tx.wire, s.rx.delivered, s.rx.reports)
    requires AllNoticed(s.tx.bounds, s.tx.wire, s.rx.delivered, k)
    ensures NumberedUpTo(s.rx.reports, k)
  {
    var rs := s.rx.reports;
    if rs != [] {
      NumbersGrow(s.tx.bounds, rs, |rs| - 1);
      assert rs[|rs| - 1].number <= k;
    }
    assert k >= 0 by {
      if s.rx.delivered > 0 { assert WireBlockOk(s.tx, s.rx.delivered - 1); }
    }
  }

  /** Reports with rising numbers: the i-th has at least the number i + 1. */
  lemma {:induction false} NumbersGrow(b: Bounds, rs: seq<Report>, i: int)
    requires Increasing(rs) && InBounds(b, rs) && 0 <= i < |rs|
    ensures rs[i].number >= i + 1
  {
    if i > 0 {
      NumbersGrow(b, rs, i - 1);
    }
  }

  lemma TriggeredMeansNoticed(b: Bounds, w: seq<Sent>, d: int, rs: seq<Report>, k: int)
    requires 0 <= d <= |w| && k < |b.datagrams| && Rising(b.datagrams)
    requires InBounds(b, rs) && AllTriggered(b, w, d, rs) && NumberedUpTo(rs, k)
    ensures AllNoticed(b, w, d, k)
  {
    forall j | 1 <= j <= k
      ensures Noticed(b, w, d, j)
    {
      var r := j - 1;
      assert HasTrigger(b, w, d, rs, r);
      var i :| 0 <= i < d && TriggeredBy(b, w, rs, r, i);
      assert NoticedBy(b, w, i, j);
    }
  }
}
