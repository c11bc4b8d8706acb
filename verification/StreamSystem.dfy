/**
 One test stream as a step system: the sending thread of `StartSend`, the thread
 that takes snapshots, the events that stop or break the stream, a channel, and
 the receiving stream. A run is any sequence of steps; a step that is not
 enabled leaves the system as it is, so theorems quantify over all sequences.
 */
module StreamSystem {
  import opened StreamModel

  /** Where the sending thread is between two accesses to shared state. */
  datatype Pc =
    | AtLoop                     // about to test the loop condition
    | HaveLength(length: int)    // block length chosen, about to stamp
    | Stamped(length: int)       // stamped, first send attempt pending
    | Retrying(length: int)      // a send attempt was refused
    | AddingBytes(length: int)   // about to add to the byte total
    | AddingDatagram             // about to add to the datagram total
    | AtFin
    | FinStamped
    | FinRetrying
    | FinAddingBytes
    | FinAddingDatagram
    | Ended

  /**
   A block on the wire with the two numbers behind it that are not on the wire:
   the snapshot count it was stamped under, and the number of the interval whose
   data it carries (0 when it carries none).
   */
  datatype Sent = Sent(block: Block, cnt: int, carried: int)

  /** The totals at every snapshot so far, snapshot 0 being the start. */
  datatype Bounds = Bounds(datagrams: seq<int>, bytes: seq<int>)

  /** Which counts were stamped: the latest, the last one that changed colour, all that did. */
  datatype Marks = Marks(stampCnt: int, carried: int, flips: set<int>)

  /** The sending stream and everything it has put on the wire. */
  datatype Tx = Tx(
    reliable: bool,
    report: TestReport,
    pc: Pc,
    lastGrp: int,
    hdr: Header,
    state: StreamState,
    hasErr: bool,
    connected: bool,
    wire: seq<Sent>,
    abandoned: int,          // blocks counted but never accepted
    bounds: Bounds,
    marks: Marks,
    lostLengths: seq<int>,   // the length of the abandoned block, if there is one
    finLengths: seq<int>)    // the length counted for the closing block

  /** The send loop of `StartSend`. */
  datatype LoopStep =
    | Poll(length: int)
    | Stamp
    | SendAccepted
    | SendRefused
    | Abandon
    | AddBytes
    | AddDatagram

  /** `SendFIN`, entered when the loop is left. */
  datatype FinStep =
    | EnterFin
    | FinAccepted(length: int)
    | FinRefused
    | FinAbandon
    | FinAddBytes(length: int)
    | FinAddDatagram

  /** What other threads do to the sending stream. */
  datatype EventStep =
    | TakeSnapshot
    | FinishReport
    | Kill
    | RaiseError
    | Disconnect

  datatype TxStep = Loop(loop: LoopStep) | Fin(fin: FinStep) | Event(event: EventStep)

  function InitialTx(reliable: bool): Tx {
    Tx(reliable, EmptyReport, AtLoop, 0, FreshHeader, StreamStart, false, true, [], 0,
       Bounds([0], [0]), Marks(0, 0, {}), [], [])
  }

  // ------------------------------------------------------------- the send loop

  function ApplyPoll(t: Tx, length: int): Tx {
    if t.pc != AtLoop || length <= 0 then t
    else if !t.connected || t.state != StreamStart then t.(pc := AtFin)
    else if t.hasErr then t.(hasErr := false, state := StreamDone, pc := AtFin)
    else t.(pc := HaveLength(length))
  }

  function Mark(m: Marks, n: int, flip: bool): Marks {
    if flip then Marks(n, n, m.flips + {n}) else m.(stampCnt := n)
  }

  function ApplyStamp(t: Tx): Tx {
    if !t.pc.HaveLength? then t
    else
      t.(pc := Stamped(t.pc.length),
         hdr := StampHeader(t.hdr, t.report, t.lastGrp),
         lastGrp := StampGrp(t.report, t.lastGrp),
         marks := Mark(t.marks, t.report.snapshotCnt, Flips(t.report, t.lastGrp)))
  }

  predicate Attempting(pc: Pc) {
    pc.Stamped? || pc.Retrying?
  }

  function ApplySendAccepted(t: Tx): Tx {
    if !Attempting(t.pc) then t
    else t.(pc := AddingBytes(t.pc.length),
            wire := t.wire + [Sent(Block(t.hdr, t.pc.length), t.marks.stampCnt, t.marks.carried)])
  }

  function ApplySendRefused(t: Tx): Tx {
    if !Attempting(t.pc) then t else t.(pc := Retrying(t.pc.length))
  }

  /** The retry loop gives up; the block is counted below although nothing took it. */
  function ApplyAbandon(t: Tx): Tx {
    if !t.pc.Retrying? || (t.state == StreamStart && !t.hasErr) then t
    else t.(pc := AddingBytes(t.pc.length), abandoned := t.abandoned + 1, lostLengths := t.lostLengths + [t.pc.length])
  }

  function ApplyAddBytes(t: Tx): Tx {
    if !t.pc.AddingBytes? then t
    else t.(pc := AddingDatagram, report := t.report.(bytes := t.report.bytes + t.pc.length))
  }

  function ApplyAddDatagram(t: Tx): Tx {
    if t.pc != AddingDatagram then t
    else t.(pc := AtLoop, report := t.report.(datagrams := t.report.datagrams + 1))
  }

  function ApplyLoop(t: Tx, step: LoopStep): Tx {
    match step
    case Poll(n) => ApplyPoll(t, n)
    case Stamp => ApplyStamp(t)
    case SendAccepted => ApplySendAccepted(t)
    case SendRefused => ApplySendRefused(t)
    case Abandon => ApplyAbandon(t)
    case AddBytes => ApplyAddBytes(t)
    case AddDatagram => ApplyAddDatagram(t)
  }

  // ---------------------------------------------------------- the closing block

  function ApplyEnterFin(t: Tx): Tx {
    if t.pc != AtFin then t
    else if !t.reliable then t.(pc := Ended)
    else t.(pc := FinStamped, hdr := StampFin(t.hdr, t.report))
  }

  predicate FinAttempting(pc: Pc) {
    pc == FinStamped || pc == FinRetrying
  }

  function ApplyFinAccepted(t: Tx, length: int): Tx {
    if !FinAttempting(t.pc) || length <= 0 then t
    else t.(pc := FinAddingBytes,
            wire := t.wire + [Sent(Block(t.hdr, length), t.report.snapshotCnt, 0)])
  }

  function ApplyFinRefused(t: Tx): Tx {
    if !FinAttempting(t.pc) then t else t.(pc := FinRetrying)
  }

  function ApplyFinAbandon(t: Tx): Tx {
    if t.pc != FinRetrying || (t.state != StreamDone && !t.hasErr) then t else t.(pc := Ended)
  }

  /** The ideal length is read again here and may differ from the length that was sent. */
  function ApplyFinAddBytes(t: Tx, length: int): Tx {
    if t.pc != FinAddingBytes || length <= 0 then t
    else t.(pc := FinAddingDatagram, report := t.report.(bytes := t.report.bytes + length),
            finLengths := t.finLengths + [length])
  }

  function ApplyFinAddDatagram(t: Tx): Tx {
    if t.pc != FinAddingDatagram then t
    else t.(pc := Ended, report := t.report.(datagrams := t.report.datagrams + 1))
  }

  function ApplyFin(t: Tx, step: FinStep): Tx {
    match step
    case EnterFin => ApplyEnterFin(t)
    case FinAccepted(n) => ApplyFinAccepted(t, n)
    case FinRefused => ApplyFinRefused(t)
    case FinAbandon => ApplyFinAbandon(t)
    case FinAddBytes(n) => ApplyFinAddBytes(t, n)
    case FinAddDatagram => ApplyFinAddDatagram(t)
  }

  // -------------------------------------------------------------- other threads

  function ApplySnapshot(t: Tx): Tx {
    var r := Snapshot(t.report);
    t.(report := r,
       bounds := Bounds(t.bounds.datagrams + [r.snapDatagrams], t.bounds.bytes + [r.snapBytes]))
  }

  function ApplyEvent(t: Tx, step: EventStep): Tx {
    match step
    case TakeSnapshot => ApplySnapshot(t)
    case FinishReport => if t.state == StreamDone then t else t.(state := StreamStop)
    case Kill => t.(state := StreamDone, connected := false)
    case RaiseError => t.(hasErr := true)
    case Disconnect => t.(connected := false)
  }

  function ApplyTx(t: Tx, step: TxStep): Tx {
    match step
    case Loop(l) => ApplyLoop(t, l)
    case Fin(f) => ApplyFin(t, f)
    case Event(e) => ApplyEvent(t, e)
  }

  // ------------------------------------------------------- channel and receiver

  /** One report the receiver acted on; `seen` is the full arrival history at that moment. */
  datatype Report = Report(number: int, interval: Interval, actual: int, seen: set<int>)

  /** The receiving stream, with its own buffer, everything that ever arrived and every report it acted on. */
  datatype Rx = Rx(
    rcv: Receiver,
    delivered: nat,
    hdr: Header,
    finAckSent: bool,
    arrived: set<int>,
    reports: seq<Report>)

  /**
   `reliable` streams close with a FIN and run over a channel that keeps order and
   loses nothing; other streams send no FIN and may lose, repeat and reorder.
   */
  datatype System = System(fifo: bool, tx: Tx, rx: Rx, finAcked: bool)

  datatype Step =
    | Send(step: TxStep)
    | Deliver(index: nat, ackAccepted: bool)
    | ReceiveFinAck

  function Initial(reliable: bool, fifo: bool): System {
    System(reliable || fifo, InitialTx(reliable), Rx(FreshReceiver, 0, FreshHeader, false, {}, []), false)
  }

  /** On an ordered channel only the next block can arrive; otherwise any block, any number of times. */
  predicate CanDeliver(s: System, i: nat) {
    i < |s.tx.wire| && (s.fifo ==> i == s.rx.delivered) && s.rx.rcv.recorder.Valid()
  }

  function NewReport(x: Rx, m: Sent): Report {
    Report(m.carried, m.block.hdr.interval, ActualReceived(x.rcv, m.block),
           x.arrived + {m.block.hdr.seqno})
  }

  /** The closing block, as the receiving side tells it from its answer. */
  predicate IsFin(h: Header) {
    h.last && !h.ack
  }

  /** The answer to a closing block, as the sending side recognises it. */
  predicate IsFinAck(h: Header) {
    h.last && h.ack
  }

  /** `UpdateReceived` for one block; `ackAccepted` says whether a FIN-ACK got out. */
  function Arrive(x: Rx, m: Sent, ackAccepted: bool): Rx
    requires x.rcv.recorder.Valid()
  {
    Rx(UpdateReceived(x.rcv, m.block),
       x.delivered + 1,
       if IsFin(m.block.hdr) then StampFinAck(x.hdr, EmptyReport) else x.hdr,
       x.finAckSent || (IsFin(m.block.hdr) && ackAccepted),
       x.arrived + {m.block.hdr.seqno},
       if Reports(x.rcv, m.block) then x.reports + [NewReport(x, m)] else x.reports)
  }

  // ----------------------------------------------------------------------- runs

  function Apply(s: System, step: Step): System {
    match step
    case Send(t) => s.(tx := ApplyTx(s.tx, t))
    case Deliver(i, a) => if CanDeliver(s, i) then s.(rx := Arrive(s.rx, s.tx.wire[i], a)) else s
    case ReceiveFinAck =>
      if s.rx.finAckSent && IsFinAck(s.rx.hdr) then s.(finAcked := true, tx := s.tx.(state := StreamDone)) else s
  }

  /** The state after a sequence of steps. */
  function Run(s: System, steps: seq<Step>): System {
    if steps == [] then s else Apply(Run(s, steps[..|steps| - 1]), steps[|steps| - 1])
  }
}
