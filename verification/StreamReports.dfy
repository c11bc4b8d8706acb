/**
 What the receiving side of a stream keeps, whatever the channel does, and the
 stronger facts that hold on a channel that keeps order and loses nothing.
 */
module StreamReports {
  import opened StreamModel
  import opened StreamSystem
  import opened StreamInvariants

  // ------------------------------------------------------------ finite ranges

  ghost function Range(lo: int, hi: int): (r: set<int>)
    ensures forall k :: k in r <==> lo <= k < hi
    decreases hi - lo
  {
    if hi <= lo then {} else Range(lo, hi - 1) + {hi - 1}
  }

  lemma {:induction false} RangeSize(lo: int, hi: int)
    requires lo <= hi
    ensures |Range(lo, hi)| == hi - lo
    decreases hi - lo
  {
    if lo < hi {
      RangeSize(lo, hi - 1);
    }
  }

  /** No more members than places, and all places only when every one is a member. */
  lemma InRangeSize(s: set<int>, lo: int, hi: int)
    requires lo <= hi
    ensures |InRange(s, lo, hi)| <= hi - lo
    ensures (forall k :: lo <= k < hi ==> k in s) ==> |InRange(s, lo, hi)| == hi - lo
  {
    RangeSize(lo, hi);
    var members, places := InRange(s, lo, hi), Range(lo, hi);
    assert places == members + (places - members);
    if forall k :: lo <= k < hi ==> k in s {
      assert InRange(s, lo, hi) == Range(lo, hi);
    }
  }

  // ----------------------------------------------------- the growing background

  /** Boundaries are only appended and colour changes only added. */
  ghost predicate Grows(t: Tx, u: Tx) {
    && t.bounds.datagrams <= u.bounds.datagrams && t.bounds.bytes <= u.bounds.bytes
    && t.marks.flips <= u.marks.flips
    && t.wire <= u.wire
  }

  lemma LoopGrows(t: Tx, step: LoopStep)
    ensures Grows(t, ApplyLoop(t, step))
  {
  }

  lemma FinGrows(t: Tx, step: FinStep)
    ensures Grows(t, ApplyFin(t, step))
  {
  }

  lemma TxGrows(t: Tx, step: TxStep)
    ensures Grows(t, ApplyTx(t, step))
  {
    match step
    case Loop(l) => LoopGrows(t, l);
    case Fin(f) => FinGrows(t, f);
    case Event(e) =>
  }

  // --------------------------------------------------------- the receiver's state

  /** From the last boundary on, the pruned recorder knows exactly what arrived. */
  ghost predicate RecorderInv(x: Rx) {
    && x.rcv.recorder.Valid()
    && forall k :: x.rcv.lastChanged <= k ==> (k in x.rcv.recorder.recorded <==> k in x.arrived)
  }

  /** The receiver stands at the boundary of the last interval it reported. */
  ghost predicate PositionInv(x: Rx, b: Bounds, m: Marks) {
    if x.reports == [] then
      x.rcv.lastChanged == 0 && (x.rcv.lastGrp == -1 || x.rcv.lastGrp == 0)
    else
      var k := x.reports[|x.reports| - 1].number;
      && 1 <= k < |b.datagrams| && k in m.flips
      && x.rcv.lastGrp == k % 2
      && x.rcv.lastChanged == b.datagrams[k]
  }

  /**
   A report names a real interval, and its count is the number of distinct
   sequence numbers of that interval in the complete arrival history.
   */
  ghost predicate ReportOk(r: Report, b: Bounds, m: Marks) {
    && 1 <= r.number < |b.datagrams| == |b.bytes|
    && r.number in m.flips
    && r.interval == IntervalAt(b, r.number)
    && r.actual == |InRange(r.seen, b.datagrams[r.number - 1], b.datagrams[r.number])|
  }

  ghost predicate Increasing(rs: seq<Report>) {
    forall i, j :: 0 <= i < j < |rs| ==> rs[i].number < rs[j].number
  }

  ghost predicate ReportsInv(x: Rx, b: Bounds, m: Marks) {
    Increasing(x.reports) && forall i :: 0 <= i < |x.reports| ==> ReportOk(x.reports[i], b, m)
  }

  ghost predicate RxInv(s: System) {
    && TxInv(s.tx)
    && (s.tx.reliable ==> s.fifo)
    && RecorderInv(s.rx)
    && (!s.rx.rcv.finReceived ==> PositionInv(s.rx, s.tx.bounds, s.tx.marks))
    && ReportsInv(s.rx, s.tx.bounds, s.tx.marks)
    && FinInv(s)
  }

  /** The closing block is the last one on the wire, so nothing arrives after it. */
  ghost predicate FinInv(s: System) {
    && (s.rx.finAckSent || s.finAcked ==> s.rx.rcv.finReceived)
    && (s.rx.finAckSent ==> IsFinAck(s.rx.hdr))
    && (s.fifo ==> s.rx.delivered <= |s.tx.wire|)
    && (s.rx.rcv.finReceived ==>
          s.fifo && s.rx.delivered == |s.tx.wire| && s.tx.wire != []
          && s.tx.wire[|s.tx.wire| - 1].block.hdr.last)
  }

  // ------------------------------------------------------------ one arrival

  /**
   The heart of the colour scheme: a data block that passes the colour test stands
   for an interval after the last one reported, entirely at or beyond the receiver's
   boundary, and its own sequence number is at or beyond the end of that interval.
   */
  lemma NewColourIsNewer(x: Rx, b: Bounds, m: Marks, n: int, h: Header, c: int, k: int)
    requires Tiling(b, n) && StampOk(b, m, n, h, c, k)
    requires PositionInv(x, b, m)
    requires x.reports != [] && HasNewGrpId(x.rcv, h.grp, h.seqno)
    ensures x.reports[|x.reports| - 1].number < k
    ensures h.hasInterval
    ensures x.rcv.lastChanged <= h.interval.startSeq
  {
    var j := x.reports[|x.reports| - 1].number;
    assert b.datagrams[j] < h.seqno;
    assert j <= c;
  }

  lemma ReportedIntervalIsPast(b: Bounds, m: Marks, n: int, h: Header, c: int, k: int)
    requires Tiling(b, n) && StampOk(b, m, n, h, c, k) && h.hasInterval
    ensures EndSeq(h.interval) == b.datagrams[k] <= h.seqno
    ensures 0 <= h.interval.startSeq <= EndSeq(h.interval)
  {
    assert b.datagrams[k] <= b.datagrams[c];
    assert b.datagrams[0] <= b.datagrams[k - 1] <= b.datagrams[k];
  }

  /** Recording before pruning: the recorder still agrees with the history afterwards. */
  lemma ArrivalKeepsRecorder(x: Rx, m: Sent, ack: bool)
    requires RecorderInv(x)
    requires Reports(x.rcv, m.block) ==> x.rcv.lastChanged <= EndSeq(m.block.hdr.interval)
    ensures RecorderInv(Arrive(x, m, ack))
  {
  }

  /** The count taken from the pruned recorder is the count over the whole history. */
  lemma CountIsExact(x: Rx, m: Sent)
    requires RecorderInv(x)
    requires x.rcv.lastChanged <= m.block.hdr.interval.startSeq
    requires EndSeq(m.block.hdr.interval) <= m.block.hdr.seqno
    ensures var iv := m.block.hdr.interval;
            NewReport(x, m).actual == |InRange(NewReport(x, m).seen, iv.startSeq, EndSeq(iv))|
  {
    var rec := CountArrival(x.rcv, m.block).recorder;
    var iv := m.block.hdr.interval;
    assert rec.maxSeq >= m.block.hdr.seqno;
    assert InRange(rec.recorded, iv.startSeq, MinOf(EndSeq(iv), rec.maxSeq))
        == InRange(NewReport(x, m).seen, iv.startSeq, EndSeq(iv));
  }

  /** What a data block may do to the receiver, in the form the invariant needs. */
  lemma DataArrival(s: System, i: nat)
    requires RxInv(s) && CanDeliver(s, i) && !s.tx.wire[i].block.hdr.last
    ensures var x, m := s.rx, s.tx.wire[i];
            && (Reports(x.rcv, m.block) ==>
                  && 0 < m.carried < |s.tx.bounds.datagrams|
                  && x.rcv.lastChanged <= m.block.hdr.interval.startSeq
                  && 0 <= m.block.hdr.interval.startSeq <= EndSeq(m.block.hdr.interval) <= m.block.hdr.seqno
                  && EndSeq(m.block.hdr.interval) == s.tx.bounds.datagrams[m.carried]
                  && (x.reports != [] ==> x.reports[|x.reports| - 1].number < m.carried))
            && (HasNewGrpId(x.rcv, m.block.hdr.grp, m.block.hdr.seqno) && !m.block.hdr.hasInterval ==>
                  x.reports == [] && m.block.hdr.grp == 0)
  {
    var x, m, t := s.rx, s.tx.wire[i], s.tx;
    var n := t.report.snapshotCnt;
    assert WireBlockOk(t, i);
    assert !x.rcv.finReceived;
    if HasNewGrpId(x.rcv, m.block.hdr.grp, m.block.hdr.seqno) {
      if x.reports != [] {
        NewColourIsNewer(x, t.bounds, t.marks, n, m.block.hdr, m.cnt, m.carried);
      }
      if m.block.hdr.hasInterval {
        ReportedIntervalIsPast(t.bounds, t.marks, n, m.block.hdr, m.cnt, m.carried);
      }
    }
  }

  lemma NewReportOk(s: System, i: nat)
    requires RxInv(s) && CanDeliver(s, i) && !s.tx.wire[i].block.hdr.last
    requires Reports(s.rx.rcv, s.tx.wire[i].block)
    ensures ReportOk(NewReport(s.rx, s.tx.wire[i]), s.tx.bounds, s.tx.marks)
  {
    assert WireBlockOk(s.tx, i);
    DataArrival(s, i);
    CountIsExact(s.rx, s.tx.wire[i]);
  }

  lemma ArrivalKeepsPosition(s: System, i: nat, ack: bool)
    requires RxInv(s) && CanDeliver(s, i) && !s.tx.wire[i].block.hdr.last
    ensures PositionInv(Arrive(s.rx, s.tx.wire[i], ack), s.tx.bounds, s.tx.marks)
  {
    DataArrival(s, i);
    assert WireBlockOk(s.tx, i);
  }

  lemma AppendReport(rs: seq<Report>, r: Report, b: Bounds, m: Marks)
    requires Increasing(rs) && forall i :: 0 <= i < |rs| ==> ReportOk(rs[i], b, m)
    requires ReportOk(r, b, m) && (rs != [] ==> rs[|rs| - 1].number < r.number)
    ensures Increasing(rs + [r]) && forall i :: 0 <= i < |rs + [r]| ==> ReportOk((rs + [r])[i], b, m)
  {
  }

  lemma ArrivalKeepsReports(s: System, i: nat, ack: bool)
    requires RxInv(s) && CanDeliver(s, i) && !s.tx.wire[i].block.hdr.last
    ensures ReportsInv(Arrive(s.rx, s.tx.wire[i], ack), s.tx.bounds, s.tx.marks)
  {
    DataArrival(s, i);
    if Reports(s.rx.rcv, s.tx.wire[i].block) {
      NewReportOk(s, i);
      AppendReport(s.rx.reports, NewReport(s.rx, s.tx.wire[i]), s.tx.bounds, s.tx.marks);
    }
  }

  lemma FinArrivalKeeps(s: System, i: nat, ack: bool)
    requires RxInv(s) && CanDeliver(s, i) && s.tx.wire[i].block.hdr.last
    ensures var y := Arrive(s.rx, s.tx.wire[i], ack);
            && RecorderInv(y)
            && ReportsInv(y, s.tx.bounds, s.tx.marks)
            && y.rcv.finReceived && y.reports == s.rx.reports
            && s.fifo && i == |s.tx.wire| - 1
  {
    assert WireBlockOk(s.tx, i);
    ArrivalKeepsRecorder(s.rx, s.tx.wire[i], ack);
  }

  lemma DeliverKeeps(s: System, i: nat, ack: bool)
    requires RxInv(s)
    ensures RxInv(Apply(s, Deliver(i, ack)))
  {
    if CanDeliver(s, i) {
      if s.tx.wire[i].block.hdr.last {
        FinArrivalKeeps(s, i, ack);
      } else {
        DataArrival(s, i);
        ArrivalKeepsRecorder(s.rx, s.tx.wire[i], ack);
        ArrivalKeepsPosition(s, i, ack);
        ArrivalKeepsReports(s, i, ack);
      }
    }
  }

  lemma GrowthKeepsReports(x: Rx, t: Tx, u: Tx)
    requires Grows(t, u) && |t.bounds.datagrams| == |t.bounds.bytes| && |u.bounds.datagrams| == |u.bounds.bytes|
    requires ReportsInv(x, t.bounds, t.marks)
    ensures ReportsInv(x, u.bounds, u.marks)
    ensures PositionInv(x, t.bounds, t.marks) ==> PositionInv(x, u.bounds, u.marks)
  {
    forall i | 0 <= i < |x.reports|
      ensures ReportOk(x.reports[i], u.bounds, u.marks)
    {
      assert ReportOk(x.reports[i], t.bounds, t.marks);
    }
  }

  lemma SendKeeps(s: System, step: TxStep)
    requires RxInv(s)
    ensures RxInv(Apply(s, Send(step)))
  {
    var t, u := s.tx, ApplyTx(s.tx, step);
    TxStepKeeps(t, step);
    TxGrows(t, step);
    GrowthKeepsReports(s.rx, t, u);
    GrowthKeepsFin(s, u);
    ReliableIsFixed(t, step);
  }

  lemma GrowthKeepsFin(s: System, u: Tx)
    requires FinInv(s) && WireInv(u) && Grows(s.tx, u)
    ensures FinInv(s.(tx := u))
  {
    if s.rx.rcv.finReceived {
      assert WireBlockOk(u, |s.tx.wire| - 1);
    }
  }

  lemma ReliableIsFixed(t: Tx, step: TxStep)
    ensures ApplyTx(t, step).reliable == t.reliable
  {
  }

  lemma DoneKeepsTx(t: Tx)
    requires TxInv(t)
    ensures TxInv(t.(state := StreamDone))
  {
    QuietKeepsWire(t, t.(state := StreamDone));
  }

  lemma FinAckKeeps(s: System)
    requires RxInv(s)
    ensures RxInv(Apply(s, ReceiveFinAck))
  {
    if s.rx.finAckSent {
      DoneKeepsTx(s.tx);
    }
  }

  lemma StepKeeps(s: System, step: Step)
    requires RxInv(s)
    ensures RxInv(Apply(s, step))
  {
    match step
    case Send(t) => SendKeeps(s, t);
    case Deliver(i, a) => DeliverKeeps(s, i, a);
    case ReceiveFinAck => FinAckKeeps(s);
  }

  lemma InitialOk(reliable: bool, fifo: bool)
    ensures RxInv(Initial(reliable, fifo))
  {
  }

  lemma {:induction false} Reachable(reliable: bool, fifo: bool, steps: seq<Step>)
    ensures RxInv(Run(Initial(reliable, fifo), steps))
  {
    if steps == [] {
      InitialOk(reliable, fifo);
    } else {
      Reachable(reliable, fifo, steps[..|steps| - 1]);
      StepKeeps(Run(Initial(reliable, fifo), steps[..|steps| - 1]), steps[|steps| - 1]);
    }
  }
}
