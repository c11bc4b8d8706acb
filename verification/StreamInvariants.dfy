/**
 What every step of the sending side keeps. Each part of the invariant has its
 own predicate, over no more of the state than it needs.
 */
module StreamInvariants {
  import opened StreamModel
  import opened StreamSystem

  // ----------------------------------------------------------- snapshots tile

  ghost predicate Rising(s: seq<int>) {
    |s| > 0 && s[0] == 0 && forall i, j :: 0 <= i <= j < |s| ==> s[i] <= s[j]
  }

  ghost predicate Tiling(b: Bounds, n: int) {
    |b.datagrams| == n + 1 == |b.bytes| && Rising(b.datagrams) && Rising(b.bytes)
  }

  /** Interval `k` lies between snapshots `k - 1` and `k`. */
  ghost function IntervalAt(b: Bounds, k: int): Interval
    requires 1 <= k < |b.datagrams| == |b.bytes|
  {
    Interval(b.datagrams[k - 1], b.bytes[k] - b.bytes[k - 1], b.datagrams[k] - b.datagrams[k - 1])
  }

  ghost predicate SnapshotInv(r: TestReport, b: Bounds) {
    var n := r.snapshotCnt;
    && Tiling(b, n)
    && b.datagrams[n] == r.snapDatagrams <= r.datagrams
    && b.bytes[n] == r.snapBytes <= r.bytes
    && (n > 0 ==> r.lastInterval == IntervalAt(b, n))
  }

  lemma RisingAppend(s: seq<int>, x: int)
    requires Rising(s) && s[|s| - 1] <= x
    ensures Rising(s + [x])
  {
  }

  /** A snapshot appends one boundary and leaves the earlier ones alone. */
  lemma SnapshotTiles(t: Tx)
    requires SnapshotInv(t.report, t.bounds)
    ensures var u := ApplySnapshot(t);
            && SnapshotInv(u.report, u.bounds)
            && u.bounds.datagrams[..|t.bounds.datagrams|] == t.bounds.datagrams
            && u.bounds.bytes[..|t.bounds.bytes|] == t.bounds.bytes
  {
    RisingAppend(t.bounds.datagrams, t.report.datagrams);
    RisingAppend(t.bounds.bytes, t.report.bytes);
  }

  // ------------------------------------------------------------ what stamps say

  /** No colour change happened after `k` and up to `c`. */
  ghost predicate NoFlipBetween(m: Marks, k: int, c: int) {
    forall f :: f in m.flips ==> f <= k || f > c
  }

  /** Colour and interval data of a header stamped under count `c` while the buffer carried `k`. */
  ghost predicate StampOk(b: Bounds, m: Marks, n: int, h: Header, c: int, k: int)
    requires Tiling(b, n)
  {
    && 0 <= k <= c <= n
    && h.grp == c % 2
    && (h.hasInterval <==> k > 0)
    && (k == 0 ==> c % 2 == 0)
    && (k > 0 ==> k % 2 == c % 2 && k in m.flips && h.interval == IntervalAt(b, k))
    && NoFlipBetween(m, k, c)
    && SeqInBounds(b, n, h.seqno, c)
  }

  /** A block stamped under count `c` has its sequence number in `[bounds[c], bounds[c + 1]]`. */
  ghost predicate SeqInBounds(b: Bounds, n: int, seqno: int, c: int)
    requires Tiling(b, n) && 0 <= c <= n
  {
    b.datagrams[c] <= seqno && (c < n ==> seqno <= b.datagrams[c + 1])
  }

  /** The remembered colour and the set of colour changes agree. */
  ghost predicate ColourInv(m: Marks, lastGrp: int, n: int) {
    && 0 <= m.carried <= m.stampCnt <= n
    && lastGrp == m.stampCnt % 2
    && (m.carried == 0 ==> m.stampCnt % 2 == 0)
    && (m.carried > 0 ==> m.carried in m.flips && m.carried % 2 == m.stampCnt % 2)
    && (forall f :: f in m.flips ==> 1 <= f <= m.carried)
  }

  /** The current block is stamped and not yet counted. */
  ghost predicate InFlight(pc: Pc) {
    Attempting(pc) || Counting(pc)
  }

  ghost predicate Counting(pc: Pc) {
    pc.AddingBytes? || pc == AddingDatagram
  }

  /** Between two data blocks. */
  ghost predicate Between(pc: Pc) {
    pc == AtLoop || pc.HaveLength?
  }

  ghost predicate FinOver(pc: Pc) {
    pc == FinAddingBytes || pc == FinAddingDatagram || pc == Ended
  }

  /** What the reused buffer holds while data blocks are being sent. */
  ghost predicate BufferInv(b: Bounds, m: Marks, n: int, h: Header)
    requires Tiling(b, n) && 0 <= m.carried <= n
  {
    && (h.hasInterval <==> m.carried > 0)
    && (m.carried > 0 ==> h.interval == IntervalAt(b, m.carried))
  }

  ghost predicate HeaderInv(t: Tx)
    requires Tiling(t.bounds, t.report.snapshotCnt)
  {
    && (InFlight(t.pc) ==>
          && StampOk(t.bounds, t.marks, t.report.snapshotCnt, t.hdr, t.marks.stampCnt, t.marks.carried)
          && t.hdr.seqno == t.report.datagrams && !t.hdr.last)
    && (FinAttempting(t.pc) ==>
          && t.reliable && t.hdr.last && !t.hdr.ack && !t.hdr.hasInterval
          && t.hdr.seqno == t.report.datagrams)
  }

  ghost predicate PositiveLength(pc: Pc) {
    (pc.HaveLength? || Attempting(pc) || pc.AddingBytes?) ==> pc.length > 0
  }

  ghost predicate SenderInv(t: Tx) {
    && SnapshotInv(t.report, t.bounds)
    && ColourInv(t.marks, t.lastGrp, t.report.snapshotCnt)
    && (Between(t.pc) || InFlight(t.pc) ==> BufferInv(t.bounds, t.marks, t.report.snapshotCnt, t.hdr))
    && HeaderInv(t)
    && PositiveLength(t.pc)
  }

  lemma StampKeepsSender(t: Tx)
    requires SenderInv(t)
    ensures SenderInv(ApplyStamp(t))
  {
  }

  lemma AddBytesKeepsSender(t: Tx)
    requires SenderInv(t)
    ensures SenderInv(ApplyAddBytes(t))
  {
  }

  lemma AddDatagramKeepsSender(t: Tx)
    requires SenderInv(t)
    ensures SenderInv(ApplyAddDatagram(t))
  {
  }

  /** Steps that only move the thread on, to a place that expects no more of the buffer. */
  lemma MovingKeepsSender(t: Tx, u: Tx)
    requires SenderInv(t) && PositiveLength(u.pc)
    requires u.report == t.report && u.bounds == t.bounds && u.marks == t.marks && u.lastGrp == t.lastGrp
    requires u.hdr == t.hdr && u.reliable == t.reliable
    requires InFlight(u.pc) ==> InFlight(t.pc)
    requires Between(u.pc) ==> Between(t.pc)
    requires FinAttempting(u.pc) ==> FinAttempting(t.pc)
    ensures SenderInv(u)
  {
  }

  lemma LoopKeepsSender(t: Tx, step: LoopStep)
    requires SenderInv(t)
    ensures SenderInv(ApplyLoop(t, step))
  {
    if step.Stamp? {
      StampKeepsSender(t);
    } else if step.AddBytes? {
      AddBytesKeepsSender(t);
    } else if step.AddDatagram? {
      AddDatagramKeepsSender(t);
    } else {
      LoopMoves(t, step);
      MovingKeepsSender(t, ApplyLoop(t, step));
    }
  }

  lemma LoopMoves(t: Tx, step: LoopStep)
    requires PositiveLength(t.pc) && !step.Stamp? && !step.AddBytes? && !step.AddDatagram?
    ensures var u := ApplyLoop(t, step);
            && PositiveLength(u.pc)
            && u == t.(pc := u.pc, wire := u.wire, state := u.state, hasErr := u.hasErr,
                       abandoned := u.abandoned, lostLengths := u.lostLengths)
            && (InFlight(u.pc) ==> InFlight(t.pc)) && (Between(u.pc) ==> Between(t.pc))
            && (FinAttempting(u.pc) ==> FinAttempting(t.pc))
  {
  }

  lemma EnterFinKeepsSender(t: Tx)
    requires SenderInv(t)
    ensures SenderInv(ApplyEnterFin(t))
  {
  }

  /** The counters of the closing block; nothing is stamped any more. */
  lemma FinCountKeepsSender(t: Tx, step: FinStep)
    requires SenderInv(t) && (step.FinAddBytes? || step.FinAddDatagram?)
    ensures SenderInv(ApplyFin(t, step))
  {
  }

  lemma FinKeepsSender(t: Tx, step: FinStep)
    requires SenderInv(t)
    ensures SenderInv(ApplyFin(t, step))
  {
    if step.EnterFin? {
      EnterFinKeepsSender(t);
    } else if step.FinAddBytes? || step.FinAddDatagram? {
      FinCountKeepsSender(t, step);
    } else {
      MovingKeepsSender(t, ApplyFin(t, step));
    }
  }

  lemma EventKeepsSender(t: Tx, step: EventStep)
    requires SenderInv(t)
    ensures SenderInv(ApplyEvent(t, step))
  {
    if step.TakeSnapshot? {
      SnapshotTiles(t);
    }
  }

  lemma SenderStep(t: Tx, step: TxStep)
    requires SenderInv(t)
    ensures SenderInv(ApplyTx(t, step))
  {
    match step
    case Loop(l) => LoopKeepsSender(t, l);
    case Fin(f) => FinKeepsSender(t, f);
    case Event(e) => EventKeepsSender(t, e);
  }

  // ------------------------------------------------------------------ the wire

  /** The interval number the block before position `i` carries. */
  ghost function CarriedBefore(w: seq<Sent>, i: int): int
    requires 0 <= i <= |w|
  {
    if i == 0 then 0 else w[i - 1].carried
  }

  /** Interval `k` is the first colour change after `before`. */
  ghost predicate NextFlip(m: Marks, before: int, k: int) {
    before <= k && forall f :: f in m.flips ==> f <= before || k <= f
  }

  ghost predicate DataBlockOk(b: Bounds, m: Marks, n: int, w: seq<Sent>, i: int)
    requires Tiling(b, n)
    requires 0 <= i < |w|
  {
    && StampOk(b, m, n, w[i].block.hdr, w[i].cnt, w[i].carried)
    && w[i].block.hdr.seqno == i
    && w[i].cnt <= m.stampCnt && w[i].carried <= m.carried
    && NextFlip(m, CarriedBefore(w, i), w[i].carried)
  }

  ghost predicate FinBlockOk(t: Tx, i: int)
    requires 0 <= i < |t.wire|
  {
    var h := t.wire[i].block.hdr;
    && t.reliable && i == |t.wire| - 1 && FinOver(t.pc)
    && !h.ack && !h.hasInterval && h.seqno == i + t.abandoned
  }

  ghost predicate WireBlockOk(t: Tx, i: int)
    requires Tiling(t.bounds, t.report.snapshotCnt)
    requires 0 <= i < |t.wire|
  {
    && t.wire[i].block.length > 0
    && if t.wire[i].block.hdr.last then FinBlockOk(t, i)
       else DataBlockOk(t.bounds, t.marks, t.report.snapshotCnt, t.wire, i)
  }

  ghost predicate WireInv(t: Tx) {
    && Tiling(t.bounds, t.report.snapshotCnt)
    && forall i :: 0 <= i < |t.wire| ==> WireBlockOk(t, i)
  }

  /** How many blocks the sender has counted, against how many the transport accepted. */
  ghost predicate CountInv(t: Tx) {
    var d, w, a, pc := t.report.datagrams, |t.wire|, t.abandoned, t.pc;
    && 0 <= a <= 1
    && (pc.HaveLength? || Attempting(pc) ==> d == w && a == 0)
    && (Counting(pc) || pc == FinAddingBytes || pc == FinAddingDatagram ==> d + 1 == w + a)
    && (pc == AtLoop || pc == AtFin || FinAttempting(pc) || pc == Ended ==> d == w + a)
    && (a == 1 && (pc == AtLoop || Counting(pc)) ==> t.state != StreamStart || t.hasErr)
  }

  /** The block being sent continues the chain of carried intervals on the wire. */
  ghost predicate ChainInv(t: Tx) {
    var before := CarriedBefore(t.wire, |t.wire|);
    && (t.abandoned == 0 && (Between(t.pc) || Counting(t.pc)) ==> before == t.marks.carried)
    && (Attempting(t.pc) ==> NextFlip(t.marks, before, t.marks.carried))
  }

  ghost predicate TxInv(t: Tx) {
    SenderInv(t) && CountInv(t) && ChainInv(t) && WireInv(t)
  }

  lemma LoopKeepsCount(t: Tx, step: LoopStep)
    requires CountInv(t)
    ensures CountInv(ApplyLoop(t, step))
  {
  }

  lemma FinKeepsCount(t: Tx, step: FinStep)
    requires CountInv(t)
    ensures CountInv(ApplyFin(t, step))
  {
  }

  lemma CountStep(t: Tx, step: TxStep)
    requires CountInv(t)
    ensures CountInv(ApplyTx(t, step))
  {
    match step
    case Loop(l) => LoopKeepsCount(t, l);
    case Fin(f) => FinKeepsCount(t, f);
    case Event(e) =>
  }

  lemma StampKeepsChain(t: Tx)
    requires SenderInv(t) && CountInv(t) && ChainInv(t)
    ensures ChainInv(ApplyStamp(t))
  {
  }

  lemma LoopKeepsChain(t: Tx, step: LoopStep)
    requires SenderInv(t) && CountInv(t) && ChainInv(t)
    ensures ChainInv(ApplyLoop(t, step))
  {
    if step.Stamp? {
      StampKeepsChain(t);
    }
  }

  lemma FinKeepsChain(t: Tx, step: FinStep)
    requires ChainInv(t)
    ensures ChainInv(ApplyFin(t, step))
  {
  }

  lemma EventKeepsChain(t: Tx, step: EventStep)
    requires ChainInv(t)
    ensures ChainInv(ApplyEvent(t, step))
  {
  }

  lemma ChainStep(t: Tx, step: TxStep)
    requires SenderInv(t) && CountInv(t) && ChainInv(t)
    ensures ChainInv(ApplyTx(t, step))
  {
    match step
    case Loop(l) => LoopKeepsChain(t, l);
    case Fin(f) => FinKeepsChain(t, f);
    case Event(e) => EventKeepsChain(t, e);
  }

  /** A block on the wire is not affected by a later stamp: its count is above every earlier one. */
  lemma StampKeepsBlock(b: Bounds, m: Marks, n: int, w: seq<Sent>, i: int, flip: bool)
    requires Tiling(b, n) && 0 <= i < |w| && DataBlockOk(b, m, n, w, i)
    requires m.carried <= m.stampCnt <= n && (flip ==> m.stampCnt < n)
    ensures DataBlockOk(b, Mark(m, n, flip), n, w, i)
  {
  }

  /** Only a stamp changes the marks. */
  lemma StampKeepsWire(t: Tx)
    requires TxInv(t)
    ensures WireInv(ApplyStamp(t))
  {
    var u := ApplyStamp(t);
    forall i | 0 <= i < |u.wire|
      ensures WireBlockOk(u, i)
    {
      assert WireBlockOk(t, i);
      if t.pc.HaveLength? && !t.wire[i].block.hdr.last {
        StampKeepsBlock(t.bounds, t.marks, t.report.snapshotCnt, t.wire, i, Flips(t.report, t.lastGrp));
      }
    }
  }

  /** A later snapshot only adds a boundary behind those a block refers to. */
  lemma SnapshotKeepsBlock(b: Bounds, c: Bounds, m: Marks, n: int, w: seq<Sent>, i: int)
    requires Tiling(b, n) && Tiling(c, n + 1) && b.datagrams <= c.datagrams && b.bytes <= c.bytes
    requires 0 <= i < |w| && DataBlockOk(b, m, n, w, i) && w[i].block.hdr.seqno <= c.datagrams[n + 1]
    ensures DataBlockOk(c, m, n + 1, w, i)
  {
  }

  lemma SnapshotKeepsWire(t: Tx)
    requires TxInv(t)
    ensures WireInv(ApplySnapshot(t))
  {
    SnapshotTiles(t);
    var u := ApplySnapshot(t);
    forall i | 0 <= i < |u.wire|
      ensures WireBlockOk(u, i)
    {
      assert WireBlockOk(t, i);
      if !t.wire[i].block.hdr.last {
        BehindTheCount(t, i);
        SnapshotKeepsBlock(t.bounds, u.bounds, t.marks, t.report.snapshotCnt, t.wire, i);
      }
    }
  }

  /** A block on the wire has a number up to the count of blocks. */
  lemma BehindTheCount(t: Tx, i: int)
    requires CountInv(t) && WireInv(t) && 0 <= i < |t.wire| && !t.wire[i].block.hdr.last
    ensures t.wire[i].block.hdr.seqno <= t.report.datagrams
  {
    assert WireBlockOk(t, i);
    assert WireBlockOk(t, |t.wire| - 1);
  }

  /** A longer wire does not change what its earlier blocks are checked against. */
  lemma LongerWireKeepsBlock(b: Bounds, m: Marks, n: int, w: seq<Sent>, x: Sent, i: int)
    requires Tiling(b, n) && 0 <= i < |w| && DataBlockOk(b, m, n, w, i)
    ensures DataBlockOk(b, m, n, w + [x], i)
  {
    assert CarriedBefore(w + [x], i) == CarriedBefore(w, i);
  }

  lemma AcceptKeepsWire(t: Tx)
    requires TxInv(t)
    ensures WireInv(ApplySendAccepted(t))
  {
    var u := ApplySendAccepted(t);
    if Attempting(t.pc) {
      forall i | 0 <= i < |t.wire|
        ensures WireBlockOk(u, i)
      {
        assert WireBlockOk(t, i);
        LongerWireKeepsBlock(t.bounds, t.marks, t.report.snapshotCnt, t.wire, u.wire[|t.wire|], i);
      }
      AcceptedBlockOk(t);
    }
  }

  /** The block just accepted is as the header invariant says. */
  lemma AcceptedBlockOk(t: Tx)
    requires TxInv(t) && Attempting(t.pc)
    ensures WireBlockOk(ApplySendAccepted(t), |t.wire|)
  {
    assert CarriedBefore(ApplySendAccepted(t).wire, |t.wire|) == CarriedBefore(t.wire, |t.wire|);
  }

  lemma FinAcceptKeepsWire(t: Tx, length: int)
    requires TxInv(t)
    ensures WireInv(ApplyFinAccepted(t, length))
  {
    var u := ApplyFinAccepted(t, length);
    if u != t {
      forall i | 0 <= i < |t.wire|
        ensures WireBlockOk(u, i)
      {
        assert WireBlockOk(t, i);
        LongerWireKeepsBlock(t.bounds, t.marks, t.report.snapshotCnt, t.wire, u.wire[|t.wire|], i);
      }
      assert WireBlockOk(u, |t.wire|);
    }
  }

  /** The remaining steps touch neither the wire nor anything it is described by. */
  lemma QuietKeepsWire(t: Tx, u: Tx)
    requires WireInv(t)
    requires u.wire == t.wire && u.bounds == t.bounds && u.marks == t.marks && u.reliable == t.reliable
    requires u.report.snapshotCnt == t.report.snapshotCnt
    requires FinOver(t.pc) ==> FinOver(u.pc) && u.abandoned == t.abandoned
    ensures WireInv(u)
  {
    forall i | 0 <= i < |u.wire|
      ensures WireBlockOk(u, i)
    {
      assert WireBlockOk(t, i);
    }
  }

  lemma QuietLoopStep(t: Tx, step: LoopStep)
    requires WireInv(t)
    requires !step.Stamp? && !step.SendAccepted?
    ensures WireInv(ApplyLoop(t, step))
  {
    QuietKeepsWire(t, ApplyLoop(t, step));
  }

  lemma LoopKeepsWire(t: Tx, step: LoopStep)
    requires TxInv(t)
    ensures WireInv(ApplyLoop(t, step))
  {
    if step.Stamp? {
      StampKeepsWire(t);
    } else if step.SendAccepted? {
      AcceptKeepsWire(t);
    } else {
      QuietLoopStep(t, step);
    }
  }

  lemma FinKeepsWire(t: Tx, step: FinStep)
    requires TxInv(t)
    ensures WireInv(ApplyFin(t, step))
  {
    if step.FinAccepted? {
      FinAcceptKeepsWire(t, step.length);
    } else {
      FinStaysQuiet(t, step);
      QuietKeepsWire(t, ApplyFin(t, step));
    }
  }

  lemma FinStaysQuiet(t: Tx, step: FinStep)
    requires !step.FinAccepted?
    ensures var u := ApplyFin(t, step);
            && u == t.(pc := u.pc, hdr := u.hdr, report := u.report, finLengths := u.finLengths)
            && u.report.snapshotCnt == t.report.snapshotCnt
            && (FinOver(t.pc) ==> FinOver(u.pc))
  {
  }

  lemma EventKeepsWire(t: Tx, step: EventStep)
    requires TxInv(t)
    ensures WireInv(ApplyEvent(t, step))
  {
    if step.TakeSnapshot? {
      SnapshotKeepsWire(t);
    } else {
      QuietKeepsWire(t, ApplyEvent(t, step));
    }
  }

  lemma WireStep(t: Tx, step: TxStep)
    requires TxInv(t)
    ensures WireInv(ApplyTx(t, step))
  {
    match step
    case Loop(l) => LoopKeepsWire(t, l);
    case Fin(f) => FinKeepsWire(t, f);
    case Event(e) => EventKeepsWire(t, e);
  }

  lemma TxStepKeeps(t: Tx, step: TxStep)
    requires TxInv(t)
    ensures TxInv(ApplyTx(t, step))
  {
    SenderStep(t, step);
    CountStep(t, step);
    ChainStep(t, step);
    WireStep(t, step);
  }
}
