/**
 What a stream gets done: one round of the send loop, the closing exchange, the end of
 sending after a stop, and what the byte counters mean.
 */
module StreamRounds {
  import opened StreamModel
  import opened StreamSystem
  import opened StreamInvariants
  import opened StreamReports
  import opened StreamTheorems

  // ------------------------------------------------------------------ things happen

  /** A thread about to test its loop condition that will go on. */
  predicate MaySend(t: Tx) {
    t.pc == AtLoop && t.connected && t.state == StreamStart && !t.hasErr
  }

  /** One undisturbed round puts one block on the wire and counts it. */
  lemma RoundSendsOneBlock(t: Tx, length: int)
    requires MaySend(t) && length > 0
    ensures var u := ApplyAddDatagram(ApplyAddBytes(ApplySendAccepted(ApplyStamp(ApplyPoll(t, length)))));
            && MaySend(u) && |u.wire| == |t.wire| + 1 && u.wire[..|t.wire|] == t.wire
            && u.wire[|t.wire|].block.length == length
            && u.wire[|t.wire|].block.hdr.seqno == t.report.datagrams
            && !u.wire[|t.wire|].block.hdr.last && !u.wire[|t.wire|].block.hdr.ack
            && u.wire[|t.wire|].block.hdr.grp == t.report.snapshotCnt % 2
            && (t.report.snapshotCnt <= 0 ==> !u.wire[|t.wire|].block.hdr.hasInterval)
            && (t.report.snapshotCnt > 0 && t.lastGrp != t.report.snapshotCnt % 2 ==>
                  u.wire[|t.wire|].block.hdr.hasInterval
                  && u.wire[|t.wire|].block.hdr.interval == t.report.lastInterval)
            && u.report == t.report.(bytes := t.report.bytes + length, datagrams := t.report.datagrams + 1)
  {
  }

  /** A refused block is sent again and then counts like any other. */
  lemma RefusedBlockIsRetried(t: Tx)
    requires t.pc.Stamped?
    ensures ApplySendAccepted(ApplySendRefused(t)).wire == ApplySendAccepted(t).wire
    ensures ApplySendAccepted(ApplySendRefused(t)).pc == ApplySendAccepted(t).pc
  {
  }

  /** The closing block of a reliable stream goes out with the next number and is counted. */
  lemma ClosingBlockGoesOut(t: Tx, length: int, reading: int)
    requires t.pc == AtFin && t.reliable && length > 0 && reading > 0
    ensures var u := ApplyFinAddDatagram(ApplyFinAddBytes(ApplyFinAccepted(ApplyEnterFin(t), length), reading));
            && u.pc == Ended && |u.wire| == |t.wire| + 1
            && IsFin(u.wire[|t.wire|].block.hdr) && !u.wire[|t.wire|].block.hdr.hasInterval
            && u.wire[|t.wire|].block.hdr.seqno == t.report.datagrams
            && u.wire[|t.wire|].block.hdr.grp == t.report.snapshotCnt % 2
            && u.wire[|t.wire|].block.length == length
            && u.report == t.report.(bytes := t.report.bytes + reading, datagrams := t.report.datagrams + 1)
  {
  }

  /** A refused closing block is given up exactly when the stream is done or has failed; nothing is counted then. */
  lemma ClosingBlockIsGivenUp(t: Tx)
    requires t.pc == FinStamped
    ensures var u := ApplyFinAbandon(ApplyFinRefused(t));
            && (u.pc == Ended <==> t.state == StreamDone || t.hasErr)
            && u.wire == t.wire && u.report == t.report
  {
  }

  /**
   A block on the wire can arrive: the next one on an ordered channel, any one otherwise,
   as often as the channel likes.
   */
  lemma BlocksCanArrive(reliable: bool, fifo: bool, steps: seq<Step>, i: nat, ack: bool)
    requires var s := Run(Initial(reliable, fifo), steps);
             i < |s.tx.wire| && (s.fifo ==> i == s.rx.delivered)
    ensures var s := Run(Initial(reliable, fifo), steps);
            var u := Apply(s, Deliver(i, ack));
            && u.rx.delivered == s.rx.delivered + 1
            && u.rx.arrived == s.rx.arrived + {s.tx.wire[i].block.hdr.seqno}
            && u.rx.rcv.bytes == s.rx.rcv.bytes + s.tx.wire[i].block.length
            && u.rx.rcv.datagrams == s.rx.rcv.datagrams + 1
  {
    Reachable(reliable, fifo, steps);
    var s := Run(Initial(reliable, fifo), steps);
    ArrivalCounts(s.rx, s.tx.wire[i], ack);
  }

  /** The closing block is answered, and the answer ends the sending stream. */
  lemma FinIsAnswered(steps: seq<Step>)
    requires var s := Run(Initial(true, true), steps);
             s.rx.delivered < |s.tx.wire| && s.tx.wire[s.rx.delivered].block.hdr.last
    ensures var s := Run(Initial(true, true), steps);
            var u := Apply(Apply(s, Deliver(s.rx.delivered, true)), ReceiveFinAck);
            && u.rx.rcv.finReceived && u.rx.finAckSent && u.finAcked && u.tx.state == StreamDone
            && u.rx.hdr.last && u.rx.hdr.ack && !u.rx.hdr.hasInterval
  {
    FifoReachable(true, true, steps);
    var s := Run(Initial(true, true), steps);
    assert WireBlockOk(s.tx, s.rx.delivered);
    ArrivalCounts(s.rx, s.tx.wire[s.rx.delivered], true);
  }

  /** Data, FIN and the answer to a FIN are never taken for one another. */
  lemma KindsApart(h: Header, r: TestReport, lastGrp: int)
    ensures !IsFin(StampHeader(h, r, lastGrp)) && !IsFinAck(StampHeader(h, r, lastGrp))
    ensures IsFin(StampFin(h, r)) && !IsFinAck(StampFin(h, r))
    ensures IsFinAck(StampFinAck(h, r)) && !IsFin(StampFinAck(h, r))
  {
  }

  // --------------------------------------------------------------- after a stop

  /** The stream was stopped, has failed or lost its connection, and no block is in hand. */
  predicate Halted(t: Tx) {
    && (t.state != StreamStart || t.hasErr || !t.connected)
    && !t.pc.HaveLength? && !Attempting(t.pc)
  }

  lemma HaltedLoop(t: Tx, step: LoopStep)
    requires Halted(t)
    ensures Halted(ApplyLoop(t, step)) && ApplyLoop(t, step).wire == t.wire
  {
  }

  lemma HaltedFin(t: Tx, step: FinStep)
    requires Halted(t) && HeaderOk(t)
    ensures Halted(ApplyFin(t, step))
    ensures DataLengths(ApplyFin(t, step).wire) == DataLengths(t.wire)
  {
    if step.FinAccepted? && FinAttempting(t.pc) && step.length > 0 {
      AppendLengths(t.wire, Sent(Block(t.hdr, step.length), t.report.snapshotCnt, 0));
    }
  }

  /** Whatever is about to be sent is marked as what it is, and has a length. */
  ghost predicate HeaderOk(t: Tx) {
    (FinAttempting(t.pc) ==> t.hdr.last) && (Attempting(t.pc) ==> !t.hdr.last) && PositiveLength(t.pc)
  }

  lemma HeadersAreOk(t: Tx)
    requires TxInv(t)
    ensures HeaderOk(t)
  {
  }

  lemma HaltedStep(t: Tx, step: TxStep)
    requires HeaderOk(t) && Halted(t)
    ensures Halted(ApplyTx(t, step)) && DataLengths(ApplyTx(t, step).wire) == DataLengths(t.wire)
  {
    match step
    case Loop(l) => HaltedLoop(t, l);
    case Fin(f) => HaltedFin(t, f);
    case Event(e) =>
  }

  lemma {:induction false} HaltedRun(s: System, more: seq<Step>)
    requires RxInv(s) && Halted(s.tx)
    ensures RxInv(Run(s, more)) && Halted(Run(s, more).tx)
    ensures DataLengths(Run(s, more).tx.wire) == DataLengths(s.tx.wire)
  {
    if more != [] {
      var before, step := more[..|more| - 1], more[|more| - 1];
      HaltedRun(s, before);
      StepKeeps(Run(s, before), step);
      HaltedMove(Run(s, before), step);
    }
  }

  lemma HaltedMove(s: System, step: Step)
    requires RxInv(s) && Halted(s.tx)
    ensures Halted(Apply(s, step).tx) && DataLengths(Apply(s, step).tx.wire) == DataLengths(s.tx.wire)
  {
    if step.Send? {
      HeadersAreOk(s.tx);
      HaltedStep(s.tx, step.step);
    }
  }

  /**
   Finishing the report, a kill, an error or a lost connection ends the sending of data: if
   no block is in hand when it happens, no data block goes out in any continuation.
   */
  lemma NoDataAfterStop(reliable: bool, fifo: bool, steps: seq<Step>, event: EventStep, more: seq<Step>)
    requires event == FinishReport || event == Kill || event == RaiseError || event == Disconnect
    requires var t := Run(Initial(reliable, fifo), steps).tx;
             !t.pc.HaveLength? && !Attempting(t.pc)
    ensures var s := Run(Initial(reliable, fifo), steps);
            DataLengths(Run(Apply(s, Send(Event(event))), more).tx.wire) == DataLengths(s.tx.wire)
  {
    Reachable(reliable, fifo, steps);
    var s := Run(Initial(reliable, fifo), steps);
    StepKeeps(s, Send(Event(event)));
    HaltedRun(Apply(s, Send(Event(event))), more);
  }

  /**
   An error in sending ends the loop: it is taken back and the stream is done. The closing
   block is still tried, but only once.
   */
  lemma ErrorEndsTheLoop(t: Tx, length: int)
    requires t.pc == AtLoop && t.connected && t.state == StreamStart && t.hasErr && length > 0
    ensures var u := ApplyPoll(t, length);
            && u.pc == AtFin && u.state == StreamDone && !u.hasErr && u.wire == t.wire && u.report == t.report
            && (t.reliable ==> ApplyEnterFin(u).pc == FinStamped
                               && ApplyFinAbandon(ApplyFinRefused(ApplyEnterFin(u))).pc == Ended)
  {
  }

  lemma DoneStaysDone(s: System, step: Step)
    requires s.tx.state == StreamDone && !s.tx.connected
    ensures Apply(s, step).tx.state == StreamDone && !Apply(s, step).tx.connected
  {
  }

  /** A stream that was stopped is done and disconnected for good. */
  lemma {:induction false} StopIsFinal(s: System, more: seq<Step>)
    ensures var u := Run(Apply(s, Send(Event(Kill))), more);
            u.tx.state == StreamDone && !u.tx.connected
  {
    if more != [] {
      StopIsFinal(s, more[..|more| - 1]);
      DoneStaysDone(Run(Apply(s, Send(Event(Kill))), more[..|more| - 1]), more[|more| - 1]);
    }
  }

  // ------------------------------------------------------------- what the bytes mean

  /** The lengths of the data blocks among the first `n` on the wire. */
  ghost function DataTo(w: seq<Sent>, n: nat): seq<int>
    requires n <= |w|
  {
    if n == 0 then []
    else DataTo(w, n - 1) + (if w[n - 1].block.hdr.last then [] else [w[n - 1].block.length])
  }

  ghost function DataLengths(w: seq<Sent>): seq<int> {
    DataTo(w, |w|)
  }

  lemma {:induction false} DataPrefix(w: seq<Sent>, v: seq<Sent>, n: nat)
    requires n <= |w| && w <= v
    ensures DataTo(v, n) == DataTo(w, n)
  {
    if n > 0 {
      DataPrefix(w, v, n - 1);
    }
  }

  lemma AppendLengths(w: seq<Sent>, x: Sent)
    ensures DataLengths(w + [x]) == DataLengths(w) + (if x.block.hdr.last then [] else [x.block.length])
  {
    DataPrefix(w, w + [x], |w|);
  }

  /** The sum of the first `n` numbers. */
  ghost function SumTo(s: seq<int>, n: nat): int
    requires n <= |s|
  {
    if n == 0 then 0 else SumTo(s, n - 1) + s[n - 1]
  }

  ghost function Sum(s: seq<int>): int {
    SumTo(s, |s|)
  }

  lemma {:induction false} SumPrefix(s: seq<int>, t: seq<int>, n: nat)
    requires n <= |s| && s <= t
    ensures SumTo(t, n) == SumTo(s, n)
  {
    if n > 0 {
      SumPrefix(s, t, n - 1);
    }
  }

  lemma SumAppend(s: seq<int>, x: int)
    ensures Sum(s + [x]) == Sum(s) + x
  {
    SumPrefix(s, s + [x], |s|);
  }

  /** The lengths counted, in order: data blocks, the abandoned one, the closing one as it was counted. */
  ghost function Lengths(t: Tx): seq<int> {
    DataLengths(t.wire) + t.lostLengths + t.finLengths
  }

  /** A length has been added as bytes and not yet as a datagram, or not even as bytes. */
  ghost predicate Pending(pc: Pc) {
    Counting(pc) || pc == FinAddingDatagram
  }

  /** The block whose length is in hand comes last and is not counted yet; all others are. */
  ghost predicate Tally(all: seq<int>, pc: Pc, bytes: int, datagrams: int) {
    && (if pc.AddingBytes? then all != [] && all[|all| - 1] == pc.length && bytes + pc.length == Sum(all)
        else bytes == Sum(all))
    && datagrams + (if Pending(pc) then 1 else 0) == |all|
    && forall i :: 0 <= i < |all| ==> all[i] > 0
  }

  ghost predicate BytesInv(t: Tx) {
    && |t.lostLengths| == t.abandoned
    && (t.finLengths != [] ==> t.pc == FinAddingDatagram || t.pc == Ended)
    && Tally(Lengths(t), t.pc, t.report.bytes, t.report.datagrams)
  }

  /** A step that counts no length and adds none. */
  lemma SameLengths(t: Tx, u: Tx)
    requires BytesInv(t) && Lengths(u) == Lengths(t) && u.report.bytes == t.report.bytes
    requires u.report.datagrams == t.report.datagrams && |u.lostLengths| == u.abandoned
    requires u.pc.AddingBytes? <==> t.pc.AddingBytes?
    requires u.pc.AddingBytes? ==> u.pc == t.pc
    requires Pending(u.pc) <==> Pending(t.pc)
    requires u.finLengths != [] ==> u.pc == FinAddingDatagram || u.pc == Ended
    ensures BytesInv(u)
  {
  }

  /** The block in hand is taken or given up: its length is the next to count. */
  lemma OneMoreLength(t: Tx, u: Tx)
    requires BytesInv(t) && Attempting(t.pc) && t.pc.length > 0 && u.pc == AddingBytes(t.pc.length)
    requires Lengths(u) == Lengths(t) + [t.pc.length] && u.report == t.report
    requires |u.lostLengths| == u.abandoned && u.finLengths == []
    ensures BytesInv(u)
  {
    SumAppend(Lengths(t), t.pc.length);
  }

  lemma AcceptKeepsBytes(t: Tx)
    requires HeaderOk(t) && CountInv(t) && BytesInv(t) && Attempting(t.pc)
    ensures BytesInv(ApplySendAccepted(t)) && Lengths(t) <= Lengths(ApplySendAccepted(t))
  {
    var u := ApplySendAccepted(t);
    AppendLengths(t.wire, u.wire[|t.wire|]);
    assert t.lostLengths == [] && t.finLengths == [];
    assert Lengths(u) == Lengths(t) + [t.pc.length];
    OneMoreLength(t, u);
  }

  lemma AbandonKeepsBytes(t: Tx)
    requires HeaderOk(t) && BytesInv(t) && ApplyAbandon(t) != t
    ensures BytesInv(ApplyAbandon(t)) && Lengths(t) <= Lengths(ApplyAbandon(t))
  {
    var u := ApplyAbandon(t);
    assert t.finLengths == [];
    assert Lengths(u) == Lengths(t) + [t.pc.length];
    OneMoreLength(t, u);
  }

  lemma CountingKeepsBytes(t: Tx)
    requires BytesInv(t)
    ensures BytesInv(ApplyAddBytes(t)) && Lengths(ApplyAddBytes(t)) == Lengths(t)
    ensures BytesInv(ApplyAddDatagram(t)) && Lengths(ApplyAddDatagram(t)) == Lengths(t)
  {
  }

  lemma LoopKeepsBytes(t: Tx, step: LoopStep)
    requires HeaderOk(t) && CountInv(t) && BytesInv(t)
    ensures BytesInv(ApplyLoop(t, step)) && Lengths(t) <= Lengths(ApplyLoop(t, step))
  {
    if step.SendAccepted? && Attempting(t.pc) {
      AcceptKeepsBytes(t);
    } else if step.Abandon? && ApplyAbandon(t) != t {
      AbandonKeepsBytes(t);
    } else if step.AddBytes? || step.AddDatagram? {
      CountingKeepsBytes(t);
    } else {
      QuietLoopBytes(t, step);
    }
  }

  lemma QuietLoopBytes(t: Tx, step: LoopStep)
    requires BytesInv(t) && (step.Poll? || step.Stamp? || step.SendRefused? || ApplyLoop(t, step) == t)
    ensures BytesInv(ApplyLoop(t, step)) && Lengths(t) <= Lengths(ApplyLoop(t, step))
  {
    QuietLoopMoves(t, step);
    SameLengths(t, ApplyLoop(t, step));
  }

  lemma QuietLoopMoves(t: Tx, step: LoopStep)
    requires step.Poll? || step.Stamp? || step.SendRefused? || ApplyLoop(t, step) == t
    ensures var u := ApplyLoop(t, step);
            && u.wire == t.wire && u.lostLengths == t.lostLengths && u.finLengths == t.finLengths
            && u.report == t.report && u.abandoned == t.abandoned
            && (u.pc == t.pc || (!Pending(u.pc) && !Pending(t.pc) && t.pc != Ended))
  {
  }

  lemma EventMoves(t: Tx, step: EventStep)
    ensures var u := ApplyEvent(t, step);
            && u.wire == t.wire && u.lostLengths == t.lostLengths && u.finLengths == t.finLengths && u.pc == t.pc
            && u.report.bytes == t.report.bytes && u.report.datagrams == t.report.datagrams
            && u.abandoned == t.abandoned
  {
  }

  lemma FinAcceptKeepsBytes(t: Tx, length: int)
    requires HeaderOk(t) && BytesInv(t) && ApplyFinAccepted(t, length) != t
    ensures var u := ApplyFinAccepted(t, length);
            BytesInv(u) && Lengths(u) == Lengths(t)
  {
    var u := ApplyFinAccepted(t, length);
    AppendLengths(t.wire, u.wire[|t.wire|]);
    assert Lengths(u) == Lengths(t);
    SameLengths(t, u);
  }

  lemma FinCountKeepsBytes(t: Tx, length: int)
    requires BytesInv(t) && ApplyFinAddBytes(t, length) != t
    ensures BytesInv(ApplyFinAddBytes(t, length)) && Lengths(t) <= Lengths(ApplyFinAddBytes(t, length))
  {
    var u := ApplyFinAddBytes(t, length);
    assert Lengths(u) == Lengths(t) + [length];
    SumAppend(Lengths(t), length);
  }

  lemma FinKeepsBytes(t: Tx, step: FinStep)
    requires HeaderOk(t) && BytesInv(t)
    ensures BytesInv(ApplyFin(t, step)) && Lengths(t) <= Lengths(ApplyFin(t, step))
  {
    if ApplyFin(t, step) != t {
      if step.FinAccepted? {
        FinAcceptKeepsBytes(t, step.length);
      } else if step.FinAddBytes? {
        FinCountKeepsBytes(t, step.length);
      }
    }
  }

  lemma BytesStep(t: Tx, step: TxStep)
    requires TxInv(t) && BytesInv(t)
    ensures BytesInv(ApplyTx(t, step)) && Lengths(t) <= Lengths(ApplyTx(t, step))
  {
    HeadersAreOk(t);
    TypedStep(t, step);
  }

  lemma TypedStep(t: Tx, step: TxStep)
    requires HeaderOk(t) && CountInv(t) && BytesInv(t)
    ensures BytesInv(ApplyTx(t, step)) && Lengths(t) <= Lengths(ApplyTx(t, step))
  {
    match step
    case Loop(l) => LoopKeepsBytes(t, l);
    case Fin(f) => FinKeepsBytes(t, f);
    case Event(e) =>
      EventMoves(t, e);
      SameLengths(t, ApplyEvent(t, e));
  }

  /** At snapshot `k` the first `m` lengths had been counted as bytes: as many as datagrams, or one more. */
  ghost predicate CountedAt(b: Bounds, all: seq<int>, k: int, m: int)
    requires 0 <= k < |b.datagrams| == |b.bytes|
  {
    0 <= b.datagrams[k] <= m <= b.datagrams[k] + 1 && m <= |all| && b.bytes[k] == SumTo(all, m)
  }

  ghost predicate SomeCountedAt(b: Bounds, all: seq<int>, k: int)
    requires 0 <= k < |b.datagrams| == |b.bytes|
  {
    exists m :: CountedAt(b, all, k, m)
  }

  ghost predicate CountsInv(t: Tx) {
    && |t.bounds.datagrams| == |t.bounds.bytes|
    && forall k :: 0 <= k < |t.bounds.datagrams| ==> SomeCountedAt(t.bounds, Lengths(t), k)
  }

  lemma CountsGrow(b: Bounds, c: Bounds, all: seq<int>, more: seq<int>, k: int)
    requires 0 <= k < |b.datagrams| == |b.bytes| && |c.datagrams| == |c.bytes|
    requires b.datagrams <= c.datagrams && b.bytes <= c.bytes && all <= more && SomeCountedAt(b, all, k)
    ensures SomeCountedAt(c, more, k)
  {
    var m :| CountedAt(b, all, k, m);
    SumPrefix(all, more, m);
    assert CountedAt(c, more, k, m);
  }

  /** What is counted when a snapshot is taken. */
  lemma CountedNow(t: Tx) returns (m: int)
    requires TxInv(t) && BytesInv(t)
    ensures t.report.datagrams <= m <= t.report.datagrams + 1 && 0 <= m <= |Lengths(t)|
    ensures t.report.bytes == SumTo(Lengths(t), m)
  {
    var all := Lengths(t);
    if t.pc.AddingBytes? {
      m := |all| - 1;
    } else {
      m := |all|;
    }
  }

  lemma CountsStep(t: Tx, step: TxStep)
    requires TxInv(t) && BytesInv(t) && CountsInv(t)
    ensures CountsInv(ApplyTx(t, step))
  {
    var u := ApplyTx(t, step);
    BytesStep(t, step);
    TxGrows(t, step);
    TxStepKeeps(t, step);
    forall k | 0 <= k < |u.bounds.datagrams|
      ensures SomeCountedAt(u.bounds, Lengths(u), k)
    {
      if k < |t.bounds.datagrams| {
        CountsGrow(t.bounds, u.bounds, Lengths(t), Lengths(u), k);
      } else {
        NewBound(t, step, k);
      }
    }
  }

  lemma NewBound(t: Tx, step: TxStep, k: int)
    requires TxInv(t) && BytesInv(t)
    requires |t.bounds.datagrams| <= k < |ApplyTx(t, step).bounds.datagrams| == |ApplyTx(t, step).bounds.bytes|
    ensures SomeCountedAt(ApplyTx(t, step).bounds, Lengths(ApplyTx(t, step)), k)
  {
    var u := ApplyTx(t, step);
    OnlySnapshotsBound(t, step);
    var m := CountedNow(t);
    assert Lengths(u) == Lengths(t);
    assert CountedAt(u.bounds, Lengths(u), k, m);
  }

  lemma OnlySnapshotsBound(t: Tx, step: TxStep)
    ensures ApplyTx(t, step).bounds == t.bounds || step == Event(TakeSnapshot)
  {
  }

  lemma {:induction false} BytesReachable(reliable: bool, fifo: bool, steps: seq<Step>)
    ensures var t := Run(Initial(reliable, fifo), steps).tx;
            BytesInv(t) && CountsInv(t)
  {
    if steps == [] {
      assert CountedAt(Bounds([0], [0]), [], 0, 0);
    } else {
      var before, step := steps[..|steps| - 1], steps[|steps| - 1];
      BytesReachable(reliable, fifo, before);
      Reachable(reliable, fifo, before);
      BytesMove(Run(Initial(reliable, fifo), before), step);
    }
  }

  lemma BytesMove(s: System, step: Step)
    requires RxInv(s) && BytesInv(s.tx) && CountsInv(s.tx)
    ensures BytesInv(Apply(s, step).tx) && CountsInv(Apply(s, step).tx)
  {
    if step.Send? {
      BytesStep(s.tx, step.step);
      CountsStep(s.tx, step.step);
    } else {
      assert Lengths(Apply(s, step).tx) == Lengths(s.tx);
    }
  }

  /** The lengths of the closing blocks among the first `n` on the wire together. */
  ghost function ClosingTo(w: seq<Sent>, n: nat): int
    requires n <= |w|
  {
    if n == 0 then 0 else ClosingTo(w, n - 1) + (if w[n - 1].block.hdr.last then w[n - 1].block.length else 0)
  }

  ghost function ClosingLength(w: seq<Sent>): int {
    ClosingTo(w, |w|)
  }

  lemma {:induction false} TotalsSplit(w: seq<Sent>, n: nat)
    requires n <= |w|
    ensures TotalLength(w[..n]) == Sum(DataTo(w, n)) + ClosingTo(w, n)
  {
    if n > 0 {
      TotalsSplit(w, n - 1);
      assert w[..n][..n - 1] == w[..n - 1];
      SumAppend(DataTo(w, n - 1), w[n - 1].block.length);
      assert DataTo(w, n - 1) + [] == DataTo(w, n - 1);
    }
  }

  lemma {:induction false} SumConcat(a: seq<int>, b: seq<int>, n: nat)
    requires n <= |b|
    ensures SumTo(a + b, |a| + n) == Sum(a) + SumTo(b, n)
  {
    if n == 0 {
      SumPrefix(a, a + b, |a|);
    } else {
      SumConcat(a, b, n - 1);
    }
  }

  /**
   The byte total is what was sent: in every reachable state the lengths of the data blocks
   the transport took, of the block abandoned, if any, and of the closing block as it was
   counted, short only of the one block whose length is just about to be added.
   */
  lemma BytesAreSent(reliable: bool, fifo: bool, steps: seq<Step>)
    ensures var t := Run(Initial(reliable, fifo), steps).tx;
            && t.report.bytes + (if t.pc.AddingBytes? then t.pc.length else 0)
               == TotalLength(t.wire) - ClosingLength(t.wire) + Sum(t.lostLengths) + Sum(t.finLengths)
            && |t.lostLengths| == t.abandoned && (t.pc != Ended && t.pc != FinAddingDatagram ==> t.finLengths == [])
  {
    BytesReachable(reliable, fifo, steps);
    var t := Run(Initial(reliable, fifo), steps).tx;
    WholeTotal(t.wire);
    LengthsSum(DataLengths(t.wire), t.lostLengths, t.finLengths);
  }

  lemma WholeTotal(w: seq<Sent>)
    ensures TotalLength(w) == Sum(DataLengths(w)) + ClosingLength(w)
  {
    TotalsSplit(w, |w|);
    assert w[..|w|] == w;
  }

  lemma LengthsSum(a: seq<int>, b: seq<int>, c: seq<int>)
    ensures Sum(a + b + c) == Sum(a) + Sum(b) + Sum(c)
  {
    SumConcat(a, b, |b|);
    SumConcat(a + b, c, |c|);
  }

  /**
   The bytes of interval `k` are the lengths of the blocks counted between its two snapshots:
   from the block at its first sequence number on, or the one after, to the block at its
   last, or the one after.
   */
  lemma IntervalBytes(reliable: bool, fifo: bool, steps: seq<Step>, k: int) returns (from: int, to: int)
    requires 1 <= k <= Run(Initial(reliable, fifo), steps).tx.report.snapshotCnt
    ensures var t := Run(Initial(reliable, fifo), steps).tx;
            && |t.bounds.datagrams| == t.report.snapshotCnt + 1 == |t.bounds.bytes|
            && t.bounds.datagrams[k - 1] <= from <= t.bounds.datagrams[k - 1] + 1
            && t.bounds.datagrams[k] <= to <= t.bounds.datagrams[k] + 1
            && 0 <= from <= to <= |Lengths(t)|
            && IntervalAt(t.bounds, k).bytes == SumTo(Lengths(t), to) - SumTo(Lengths(t), from)
  {
    BytesReachable(reliable, fifo, steps);
    Reachable(reliable, fifo, steps);
    var t := Run(Initial(reliable, fifo), steps).tx;
    var all := Lengths(t);
    assert SomeCountedAt(t.bounds, all, k - 1) && SomeCountedAt(t.bounds, all, k);
    from :| CountedAt(t.bounds, all, k - 1, from);
    to :| CountedAt(t.bounds, all, k, to);
    assert t.bounds.bytes[k - 1] <= t.bounds.bytes[k];
    SumsRise(all, to, from);
  }

  lemma {:induction false} SumsRise(s: seq<int>, a: nat, b: nat)
    requires a <= |s| && b <= |s| && forall i :: 0 <= i < |s| ==> s[i] > 0
    ensures a < b ==> SumTo(s, a) < SumTo(s, b)
    decreases b
  {
    if a < b {
      SumsRise(s, a, b - 1);
    }
  }
}
