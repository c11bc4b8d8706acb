/**
 The promises of the alternate-marking measurement and of the FIN exchange, over
 every run of a stream.
 */
module StreamTheorems {
  import opened StreamModel
  import opened StreamSystem
  import opened StreamInvariants
  import opened StreamReports

  // ------------------------------------------------- any channel, any interleaving

  /**
   The intervals the receiver acts on come in strictly increasing order, however
   the channel loses, repeats and reorders blocks and whenever snapshots are taken.
   */
  lemma ReportsNeverRepeat(reliable: bool, fifo: bool, steps: seq<Step>, i: int, j: int)
    requires var rs := Run(Initial(reliable, fifo), steps).rx.reports;
             0 <= i < j < |rs|
    ensures var rs := Run(Initial(reliable, fifo), steps).rx.reports;
            rs[i].number < rs[j].number && EndSeq(rs[i].interval) <= rs[j].interval.startSeq
  {
    Reachable(reliable, fifo, steps);
    var s := Run(Initial(reliable, fifo), steps);
    assert ReportOk(s.rx.reports[i], s.tx.bounds, s.tx.marks);
    assert ReportOk(s.rx.reports[j], s.tx.bounds, s.tx.marks);
  }

  /** The boundary the receiver prunes at never moves back. */
  lemma BoundaryNeverMovesBack(reliable: bool, fifo: bool, steps: seq<Step>, step: Step)
    ensures var s := Run(Initial(reliable, fifo), steps);
            s.rx.rcv.lastChanged <= Run(Initial(reliable, fifo), steps + [step]).rx.rcv.lastChanged
  {
    var s := Run(Initial(reliable, fifo), steps);
    assert (steps + [step])[..|steps|] == steps;
    Reachable(reliable, fifo, steps);
    if step.Deliver? && CanDeliver(s, step.index) {
      if s.tx.wire[step.index].block.hdr.last {
        FinArrivalKeeps(s, step.index, step.ackAccepted);
        assert WireBlockOk(s.tx, step.index);
      } else {
        DataArrival(s, step.index);
      }
    }
  }

  /**
   Pruning loses nothing that still counts: every report's `actual` is the number of
   distinct sequence numbers of the reported interval that had arrived by then, it
   never exceeds the number sent, and the interval is the sender's own.
   */
  lemma ReportsCountArrivals(reliable: bool, fifo: bool, steps: seq<Step>, i: int)
    requires 0 <= i < |Run(Initial(reliable, fifo), steps).rx.reports|
    ensures var s := Run(Initial(reliable, fifo), steps);
            var r := s.rx.reports[i];
            && r.actual == |InRange(r.seen, r.interval.startSeq, EndSeq(r.interval))|
            && 0 <= r.actual <= r.interval.datagrams
            && 1 <= r.number <= s.tx.report.snapshotCnt == |s.tx.bounds.datagrams| - 1 == |s.tx.bounds.bytes| - 1
            && r.interval == IntervalAt(s.tx.bounds, r.number)
  {
    Reachable(reliable, fifo, steps);
    var s := Run(Initial(reliable, fifo), steps);
    ReportedCount(s.rx.reports[i], s.tx.bounds, s.tx.marks, s.tx.report.snapshotCnt);
  }

  lemma ReportedCount(r: Report, b: Bounds, m: Marks, n: int)
    requires Tiling(b, n) && ReportOk(r, b, m)
    ensures r.actual == |InRange(r.seen, r.interval.startSeq, EndSeq(r.interval))|
    ensures 0 <= r.actual <= r.interval.datagrams
  {
    assert b.datagrams[r.number - 1] <= b.datagrams[r.number];
    InRangeSize(r.seen, r.interval.startSeq, EndSeq(r.interval));
  }

  /** At every moment the recorder agrees with the full history from the boundary on. */
  lemma RecorderAgreesWithHistory(reliable: bool, fifo: bool, steps: seq<Step>, k: int)
    ensures var x := Run(Initial(reliable, fifo), steps).rx;
            x.rcv.lastChanged <= k ==> (k in x.rcv.recorder.recorded <==> k in x.arrived)
  {
    Reachable(reliable, fifo, steps);
  }

  // ------------------------------------------------------- tiling on the sending side

  ghost function SumDatagrams(b: Bounds, k: nat): int
    requires k < |b.datagrams| == |b.bytes|
  {
    if k == 0 then 0 else SumDatagrams(b, k - 1) + IntervalAt(b, k).datagrams
  }

  ghost function SumBytes(b: Bounds, k: nat): int
    requires k < |b.datagrams| == |b.bytes|
  {
    if k == 0 then 0 else SumBytes(b, k - 1) + IntervalAt(b, k).bytes
  }

  lemma {:induction false} SumsTelescope(b: Bounds, k: nat)
    requires k < |b.datagrams| == |b.bytes| && b.datagrams[0] == 0 == b.bytes[0]
    ensures SumDatagrams(b, k) == b.datagrams[k] && SumBytes(b, k) == b.bytes[k]
  {
    if k > 0 {
      SumsTelescope(b, k - 1);
    }
  }

  /**
   Consecutive intervals meet without gap or overlap, the first begins at 0, and none is
   negative.
   */
  lemma SnapshotsTile(reliable: bool, fifo: bool, steps: seq<Step>, k: int)
    requires var t := Run(Initial(reliable, fifo), steps).tx;
             1 <= k <= t.report.snapshotCnt
    ensures var t := Run(Initial(reliable, fifo), steps).tx;
            && |t.bounds.datagrams| == t.report.snapshotCnt + 1 == |t.bounds.bytes|
            && IntervalAt(t.bounds, k).startSeq == (if k == 1 then 0 else EndSeq(IntervalAt(t.bounds, k - 1)))
            && IntervalAt(t.bounds, k).datagrams >= 0 && IntervalAt(t.bounds, k).bytes >= 0
  {
    Reachable(reliable, fifo, steps);
  }

  /**
   All intervals together add up to the totals at the last snapshot, and the report's last
   interval is the latest of them. From the first snapshot on, and before it all is zero.
   */
  lemma SnapshotsAddUp(reliable: bool, fifo: bool, steps: seq<Step>)
    ensures var t := Run(Initial(reliable, fifo), steps).tx;
            var n := t.report.snapshotCnt;
            && n >= 0 && |t.bounds.datagrams| == n + 1 == |t.bounds.bytes|
            && SumDatagrams(t.bounds, n) == t.report.snapDatagrams <= t.report.datagrams
            && SumBytes(t.bounds, n) == t.report.snapBytes <= t.report.bytes
            && (n > 0 ==> t.report.lastInterval == IntervalAt(t.bounds, n))
  {
    Reachable(reliable, fifo, steps);
    var t := Run(Initial(reliable, fifo), steps).tx;
    SumsTelescope(t.bounds, t.report.snapshotCnt);
  }

  /**
   Colour and interval boundaries differ by at most one block: a block coloured under
   snapshot count `c` has a sequence number from the start of interval `c + 1` to its
   end, the end itself included.
   */
  lemma ColourMatchesInterval(reliable: bool, fifo: bool, steps: seq<Step>, i: int)
    requires var t := Run(Initial(reliable, fifo), steps).tx;
             0 <= i < |t.wire| && !t.wire[i].block.hdr.last
    ensures var t := Run(Initial(reliable, fifo), steps).tx;
            var m, b := t.wire[i], t.bounds.datagrams;
            && 0 <= m.cnt < |b| && m.block.hdr.grp == m.cnt % 2
            && b[m.cnt] <= m.block.hdr.seqno
            && (m.cnt + 1 < |b| ==> m.block.hdr.seqno <= b[m.cnt + 1])
  {
    Reachable(reliable, fifo, steps);
    assert WireBlockOk(Run(Initial(reliable, fifo), steps).tx, i);
  }

  // ----------------------------------------------------------- the ordered channel

  ghost function TotalLength(w: seq<Sent>): int {
    if w == [] then 0 else TotalLength(w[..|w| - 1]) + w[|w| - 1].block.length
  }

  /** Interval `j` was announced by a colour change and is wider than the threshold. */
  ghost predicate Wide(b: Bounds, m: Marks, j: int)
    requires 1 <= j < |b.datagrams|
  {
    j in m.flips && b.datagrams[j] - b.datagrams[j - 1] > REORDER_THRESHOLD
  }

  ghost predicate AllWide(b: Bounds, m: Marks, k: int)
    requires k < |b.datagrams|
  {
    forall j :: 1 <= j <= k ==> Wide(b, m, j)
  }

  ghost predicate NumberedUpTo(rs: seq<Report>, k: int) {
    |rs| == k && forall i :: 0 <= i < |rs| ==> rs[i].number == i + 1
  }

  ghost predicate FifoInv(s: System) {
    var x, w := s.rx, s.tx.wire;
    s.fifo ==>
      && x.delivered <= |w|
      && x.rcv.datagrams == x.delivered
      && x.rcv.bytes == TotalLength(w[..x.delivered])
      && (forall i :: 0 <= i < x.delivered ==> w[i].block.hdr.seqno in x.arrived)
      && (forall i :: 0 <= i < |x.reports| ==> x.reports[i].actual == x.reports[i].interval.datagrams)
      && (x.delivered > 0 && w[x.delivered - 1].block.hdr.last ==> x.rcv.finReceived)
  }

  ghost predicate CompleteInv(s: System) {
    s.fifo && !s.rx.rcv.finReceived && s.rx.delivered <= |s.tx.wire| ==>
      var k := CarriedBefore(s.tx.wire, s.rx.delivered);
      k < |s.tx.bounds.datagrams|
      && (AllWide(s.tx.bounds, s.tx.marks, k) ==> NumberedUpTo(s.rx.reports, k))
  }

  /** In order and without loss, the whole of a reported interval has arrived. */
  lemma OrderedReportIsFull(s: System)
    requires RxInv(s) && FifoInv(s) && s.fifo && CanDeliver(s, s.rx.delivered)
    requires Reports(s.rx.rcv, s.tx.wire[s.rx.delivered].block)
    ensures var m := s.tx.wire[s.rx.delivered];
            NewReport(s.rx, m).actual == m.block.hdr.interval.datagrams
  {
    var i, m := s.rx.delivered, s.tx.wire[s.rx.delivered];
    assert WireBlockOk(s.tx, i);
    DataArrival(s, i);
    NewReportOk(s, i);
    var iv, seen := m.block.hdr.interval, NewReport(s.rx, m).seen;
    forall k | iv.startSeq <= k < EndSeq(iv)
      ensures k in seen
    {
      assert WireBlockOk(s.tx, k);
    }
    InRangeSize(seen, iv.startSeq, EndSeq(iv));
  }

  /** The plain counting in one arrival, apart from colours and reports. */
  lemma ArrivalCounts(x: Rx, m: Sent, ack: bool)
    requires x.rcv.recorder.Valid()
    ensures var y := Arrive(x, m, ack);
            && y.delivered == x.delivered + 1
            && y.rcv.bytes == x.rcv.bytes + m.block.length
            && y.rcv.datagrams == x.rcv.datagrams + 1
            && y.rcv.finReceived == (x.rcv.finReceived || (m.block.hdr.last && !m.block.hdr.ack))
            && y.arrived == x.arrived + {m.block.hdr.seqno}
            && y.reports == if Reports(x.rcv, m.block) then x.reports + [NewReport(x, m)] else x.reports
  {
  }

  lemma ArrivalKeepsFifo(s: System, y: Rx)
    requires FifoInv(s) && s.fifo && s.rx.delivered < |s.tx.wire|
    requires var m := s.tx.wire[s.rx.delivered];
             && (m.block.hdr.last ==> y.rcv.finReceived)
             && y.delivered == s.rx.delivered + 1
             && y.rcv.bytes == s.rx.rcv.bytes + m.block.length
             && y.rcv.datagrams == s.rx.rcv.datagrams + 1
             && y.arrived == s.rx.arrived + {m.block.hdr.seqno}
             && (y.reports == s.rx.reports
                 || (NewReport(s.rx, m).actual == m.block.hdr.interval.datagrams
                     && y.reports == s.rx.reports + [NewReport(s.rx, m)]))
    ensures FifoInv(s.(rx := y))
  {
    var i := s.rx.delivered;
    assert s.tx.wire[..i + 1][..i] == s.tx.wire[..i];
  }

  lemma DeliverKeepsFifo(s: System, i: nat, ack: bool)
    requires RxInv(s) && FifoInv(s)
    ensures FifoInv(Apply(s, Deliver(i, ack)))
  {
    if s.fifo && CanDeliver(s, i) {
      assert WireBlockOk(s.tx, i);
      ArrivalCounts(s.rx, s.tx.wire[i], ack);
      if Reports(s.rx.rcv, s.tx.wire[i].block) {
        OrderedReportIsFull(s);
      }
      ArrivalKeepsFifo(s, Arrive(s.rx, s.tx.wire[i], ack));
    }
  }

  lemma GrowthKeepsFifo(s: System, u: Tx)
    requires FifoInv(s) && Grows(s.tx, u)
    ensures FifoInv(s.(tx := u))
  {
    if s.fifo {
      assert u.wire[..s.rx.delivered] == s.tx.wire[..s.rx.delivered];
    }
  }

  lemma StepKeepsFifo(s: System, step: Step)
    requires RxInv(s) && FifoInv(s)
    ensures FifoInv(Apply(s, step))
  {
    match step
    case Send(t) =>
      TxGrows(s.tx, t);
      GrowthKeepsFifo(s, ApplyTx(s.tx, t));
    case Deliver(i, a) => DeliverKeepsFifo(s, i, a);
    case ReceiveFinAck => GrowthKeepsFifo(s, s.tx.(state := StreamDone));
  }

  /** The receiver has reported up to interval `k` and stands at its end. */
  ghost predicate StandsAt(r: Receiver, b: Bounds, k: int)
    requires k < |b.datagrams|
  {
    if k <= 0 then r.lastGrp <= 0 && r.lastChanged == 0 else r.lastGrp == k % 2 && r.lastChanged == b.datagrams[k]
  }

  lemma PositionFromReports(x: Rx, b: Bounds, m: Marks, k: int)
    requires PositionInv(x, b, m) && NumberedUpTo(x.reports, k) && k < |b.datagrams|
    ensures StandsAt(x.rcv, b, k)
  {
    if k > 0 {
      assert x.reports[k - 1].number == k;
    }
  }

  /** The first stamp with a wide interval, seen by a receiver that stands at the interval before it. */
  lemma WideFlipIsNew(b: Bounds, m: Marks, n: int, h: Header, c: int, before: int, k: int, r: Receiver)
    requires Tiling(b, n) && StampOk(b, m, n, h, c, k) && NextFlip(m, before, k)
    requires 0 <= before < k && AllWide(b, m, k) && StandsAt(r, b, before)
    ensures k == before + 1 && HasNewGrpId(r, h.grp, h.seqno) && h.hasInterval
  {
    assert Wide(b, m, before + 1);
    assert b.datagrams[k] <= b.datagrams[c] <= h.seqno;
  }

  /** A wide interval is announced by the very first block that carries it. */
  lemma WideIntervalIsNoticed(s: System)
    requires RxInv(s) && CompleteInv(s) && s.fifo && CanDeliver(s, s.rx.delivered)
    requires !s.tx.wire[s.rx.delivered].block.hdr.last
    requires var m := s.tx.wire[s.rx.delivered];
             && CarriedBefore(s.tx.wire, s.rx.delivered) < m.carried < |s.tx.bounds.datagrams|
             && AllWide(s.tx.bounds, s.tx.marks, m.carried)
    ensures var m := s.tx.wire[s.rx.delivered];
            Reports(s.rx.rcv, m.block) && m.carried == CarriedBefore(s.tx.wire, s.rx.delivered) + 1
  {
    var i, m := s.rx.delivered, s.tx.wire[s.rx.delivered];
    var k := CarriedBefore(s.tx.wire, i);
    assert WireBlockOk(s.tx, i);
    CarriedIsNatural(s.tx, i);
    PositionFromReports(s.rx, s.tx.bounds, s.tx.marks, k);
    WideFlipIsNew(s.tx.bounds, s.tx.marks, s.tx.report.snapshotCnt, m.block.hdr, m.cnt, k, m.carried, s.rx.rcv);
  }

  lemma CarriedIsNatural(t: Tx, i: int)
    requires WireInv(t) && 0 <= i < |t.wire| && !t.wire[i].block.hdr.last
    ensures CarriedBefore(t.wire, i) >= 0
  {
    if i > 0 {
      assert WireBlockOk(t, i - 1);
    }
  }

  /** The next block either repeats the interval just reported or announces the next one. */
  lemma NextBlockReportsNext(s: System)
    requires RxInv(s) && CompleteInv(s) && s.fifo && CanDeliver(s, s.rx.delivered)
    requires !s.tx.wire[s.rx.delivered].block.hdr.last
    requires 0 <= s.tx.wire[s.rx.delivered].carried < |s.tx.bounds.datagrams|
    requires AllWide(s.tx.bounds, s.tx.marks, s.tx.wire[s.rx.delivered].carried)
    ensures var k, m := CarriedBefore(s.tx.wire, s.rx.delivered), s.tx.wire[s.rx.delivered];
            && NumberedUpTo(s.rx.reports, k)
            && if Reports(s.rx.rcv, m.block) then m.carried == k + 1 else m.carried == k
  {
    var k, m := CarriedBefore(s.tx.wire, s.rx.delivered), s.tx.wire[s.rx.delivered];
    assert WireBlockOk(s.tx, s.rx.delivered);
    if k < m.carried {
      WideIntervalIsNoticed(s);
    } else {
      DataArrival(s, s.rx.delivered);
    }
  }

  lemma DeliverKeepsComplete(s: System, i: nat, ack: bool)
    requires RxInv(s) && CompleteInv(s)
    ensures CompleteInv(Apply(s, Deliver(i, ack)))
  {
    if s.fifo && CanDeliver(s, i) {
      if s.tx.wire[i].block.hdr.last {
        FinArrivalKeeps(s, i, ack);
      } else {
        DataKeepsComplete(s, ack);
      }
    }
  }

  lemma DataKeepsComplete(s: System, ack: bool)
    requires RxInv(s) && CompleteInv(s) && s.fifo && CanDeliver(s, s.rx.delivered)
    requires !s.tx.wire[s.rx.delivered].block.hdr.last
    ensures CompleteInv(s.(rx := Arrive(s.rx, s.tx.wire[s.rx.delivered], ack)))
  {
    var i := s.rx.delivered;
    var m := s.tx.wire[i];
    assert WireBlockOk(s.tx, i);
    ArrivalCounts(s.rx, m, ack);
    if AllWide(s.tx.bounds, s.tx.marks, m.carried) {
      NextBlockReportsNext(s);
    }
    OneMoreReport(s, Arrive(s.rx, m, ack), Reports(s.rx.rcv, m.block), NewReport(s.rx, m));
  }

  lemma OneMoreReport(s: System, y: Rx, reports: bool, r: Report)
    requires s.fifo && s.rx.delivered < |s.tx.wire| && y.delivered == s.rx.delivered + 1
    requires 0 <= s.tx.wire[s.rx.delivered].carried < |s.tx.bounds.datagrams|
    requires r.number == s.tx.wire[s.rx.delivered].carried
    requires y.reports == if reports then s.rx.reports + [r] else s.rx.reports
    requires AllWide(s.tx.bounds, s.tx.marks, r.number) ==>
               var k := CarriedBefore(s.tx.wire, s.rx.delivered);
               NumberedUpTo(s.rx.reports, k) && r.number == if reports then k + 1 else k
    ensures CompleteInv(s.(rx := y))
  {
    assert CarriedBefore(s.tx.wire, y.delivered) == r.number;
  }

  lemma SendKeepsComplete(s: System, step: TxStep)
    requires RxInv(s) && FifoInv(s) && CompleteInv(s)
    ensures CompleteInv(Apply(s, Send(step)))
  {
    var t, u := s.tx, ApplyTx(s.tx, step);
    TxGrows(t, step);
    if s.fifo && !s.rx.rcv.finReceived {
      var k := CarriedBefore(t.wire, s.rx.delivered);
      assert CarriedBefore(u.wire, s.rx.delivered) == k;
      assert k <= t.marks.carried by {
        if s.rx.delivered > 0 { assert WireBlockOk(t, s.rx.delivered - 1); }
      }
      NewFlipsAreLater(t, step);
      if AllWide(u.bounds, u.marks, k) {
        forall j | 1 <= j <= k
          ensures Wide(t.bounds, t.marks, j)
        {
          assert Wide(u.bounds, u.marks, j);
        }
      }
    }
  }

  lemma NewFlipsAreLater(t: Tx, step: TxStep)
    requires ColourInv(t.marks, t.lastGrp, t.report.snapshotCnt)
    ensures forall f :: f in ApplyTx(t, step).marks.flips ==> f in t.marks.flips || f > t.marks.carried
  {
  }

  lemma {:induction false} FifoReachable(reliable: bool, fifo: bool, steps: seq<Step>)
    ensures var s := Run(Initial(reliable, fifo), steps);
            RxInv(s) && FifoInv(s) && CompleteInv(s) && s.fifo == (reliable || fifo)
  {
    Reachable(reliable, fifo, steps);
    if steps != [] {
      var before, step := steps[..|steps| - 1], steps[|steps| - 1];
      FifoReachable(reliable, fifo, before);
      var s := Run(Initial(reliable, fifo), before);
      StepKeepsFifo(s, step);
      StepKeepsComplete(s, step);
    }
  }

  lemma StepKeepsComplete(s: System, step: Step)
    requires RxInv(s) && FifoInv(s) && CompleteInv(s)
    ensures CompleteInv(Apply(s, step)) && Apply(s, step).fifo == s.fifo
  {
    match step
    case Send(t) => SendKeepsComplete(s, t);
    case Deliver(i, a) => DeliverKeepsComplete(s, i, a);
    case ReceiveFinAck =>
  }

  /** On an ordered, loss-free channel every report shows a loss of zero. */
  lemma OrderedChannelShowsNoLoss(reliable: bool, steps: seq<Step>, i: int)
    requires 0 <= i < |Run(Initial(reliable, true), steps).rx.reports|
    ensures var r := Run(Initial(reliable, true), steps).rx.reports[i];
            r.interval.datagrams - r.actual == 0
  {
    FifoReachable(reliable, true, steps);
  }

  /**
   On an ordered, loss-free channel, when every interval so far was announced by a
   colour change and holds more blocks than the reorder threshold, the receiver has
   reported exactly the intervals 1, 2, ..., k, where k is the one the latest block carries.
   */
  lemma OrderedChannelReportsEverything(reliable: bool, steps: seq<Step>)
    requires var s := Run(Initial(reliable, true), steps);
             && 0 < s.rx.delivered <= |s.tx.wire| && !s.rx.rcv.finReceived
             && 0 <= s.tx.wire[s.rx.delivered - 1].carried < |s.tx.bounds.datagrams|
             && AllWide(s.tx.bounds, s.tx.marks, s.tx.wire[s.rx.delivered - 1].carried)
    ensures var s := Run(Initial(reliable, true), steps);
            && |s.rx.reports| == s.tx.wire[s.rx.delivered - 1].carried
            && forall i :: 0 <= i < |s.rx.reports| ==> s.rx.reports[i].number == i + 1
  {
    FifoReachable(reliable, true, steps);
  }

  // ------------------------------------------------------------------ the FIN exchange

  /**
   Once the FIN-ACK is back, the receiver has every byte the transport accepted, the
   closing block included.
   */
  lemma FinAckMeansAllReceived(steps: seq<Step>)
    requires Run(Initial(true, true), steps).finAcked
    ensures var s := Run(Initial(true, true), steps);
            && s.rx.rcv.bytes == TotalLength(s.tx.wire)
            && s.rx.rcv.datagrams == |s.tx.wire| > 0
            && s.tx.wire[|s.tx.wire| - 1].block.hdr.last
  {
    FifoReachable(true, true, steps);
    var s := Run(Initial(true, true), steps);
    assert s.tx.wire[..|s.tx.wire|] == s.tx.wire;
  }

  /**
   Sequence numbers on the wire rise without a gap up to the closing block, which may
   skip one number: that of the block abandoned when the stream was stopped. When the
   sending thread has ended, its datagram total exceeds the accepted blocks by exactly
   the number of abandoned blocks, at most one.
   */
  lemma WireNumbersHaveAtMostOneGap(reliable: bool, fifo: bool, steps: seq<Step>)
    ensures var t := Run(Initial(reliable, fifo), steps).tx;
            && 0 <= t.abandoned <= 1
            && (forall i :: 0 <= i < |t.wire| ==>
                  t.wire[i].block.hdr.seqno == (if t.wire[i].block.hdr.last then i + t.abandoned else i)
                  && (t.wire[i].block.hdr.last ==> i == |t.wire| - 1))
            && (t.pc == Ended ==> t.report.datagrams == |t.wire| + t.abandoned)
  {
    Reachable(reliable, fifo, steps);
    var t := Run(Initial(reliable, fifo), steps).tx;
    forall i | 0 <= i < |t.wire|
      ensures t.wire[i].block.hdr.seqno == (if t.wire[i].block.hdr.last then i + t.abandoned else i)
      ensures t.wire[i].block.hdr.last ==> i == |t.wire| - 1
    {
      assert WireBlockOk(t, i);
    }
  }

  /**
   The receiver of an ordered protocol insists that the first block it sees has number
   0. That holds exactly unless the first block is already the closing one and a data
   block was abandoned before it.
   */
  lemma FirstNumberIsZero(steps: seq<Step>)
    requires Run(Initial(true, true), steps).tx.wire != []
    ensures var t := Run(Initial(true, true), steps).tx;
            t.wire[0].block.hdr.seqno == 0 <==> !(t.wire[0].block.hdr.last && t.abandoned == 1)
  {
    WireNumbersHaveAtMostOneGap(true, true, steps);
  }

  /** A run in which stopping before anything was accepted makes the first number 1. */
  lemma FirstNumberCanBeOne() returns (steps: seq<Step>)
    ensures var t := Run(Initial(true, true), steps).tx;
            t.wire != [] && t.wire[0].block.hdr.seqno == 1
  {
    var s0 := Initial(true, true);
    var half := AbandonedFirstBlock();
    var p1 := half + [Send(Loop(Poll(100)))];
    var p2 := p1 + [Send(Fin(EnterFin))];
    steps := p2 + [Send(Fin(FinAccepted(100)))];
    RunAppend(s0, half, Send(Loop(Poll(100))));
    RunAppend(s0, p1, Send(Fin(EnterFin)));
    RunAppend(s0, p2, Send(Fin(FinAccepted(100))));
    assert Run(s0, p2).tx.hdr.seqno == 1;
  }

  /** The first block has been stamped and refused. */
  lemma RefusedFirstBlock() returns (steps: seq<Step>)
    ensures var t := Run(Initial(true, true), steps).tx;
            && t.pc == Retrying(100) && t.wire == [] && t.report == EmptyReport && t.state == StreamStart
            && t.reliable && t.connected
  {
    var s0 := Initial(true, true);
    var p1 := [Send(Loop(Poll(100)))];
    var p2 := p1 + [Send(Loop(Stamp))];
    steps := p2 + [Send(Loop(SendRefused))];
    RunAppend(s0, [], Send(Loop(Poll(100))));
    RunAppend(s0, p1, Send(Loop(Stamp)));
    RunAppend(s0, p2, Send(Loop(SendRefused)));
  }

  /** It is given up when the stream is stopped, and counted all the same. */
  lemma AbandonedFirstBlock() returns (steps: seq<Step>)
    ensures var t := Run(Initial(true, true), steps).tx;
            t.pc == AtLoop && t.wire == [] && t.report.datagrams == 1 && t.state == StreamStop && t.reliable
  {
    var s0 := Initial(true, true);
    var p := RefusedFirstBlock();
    var p1 := p + [Send(Event(FinishReport))];
    var p2 := p1 + [Send(Loop(Abandon))];
    var p3 := p2 + [Send(Loop(AddBytes))];
    steps := p3 + [Send(Loop(AddDatagram))];
    RunAppend(s0, p, Send(Event(FinishReport)));
    RunAppend(s0, p1, Send(Loop(Abandon)));
    assert Run(s0, p2).tx.pc == AddingBytes(100);
    RunAppend(s0, p2, Send(Loop(AddBytes)));
    RunAppend(s0, p3, Send(Loop(AddDatagram)));
  }

  lemma RunAppend(s: System, steps: seq<Step>, step: Step)
    ensures Run(s, steps + [step]) == Apply(Run(s, steps), step)
  {
    assert (steps + [step])[..|steps|] == steps;
  }
}
