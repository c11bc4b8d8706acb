/**
 The values one test stream works on, and what each statement group of
 `example/iperf-bats/iperf_stream.cc` does to them: the sender's report and its
 snapshots, the stamping of a block, and the receiver's reaction to an arrival.

 Counters are unbounded integers: the model covers runs in which no 64-bit
 counter wraps, so the half-ring comparison of sequence numbers is `<`.
 */
module StreamModel {

  /** How far a sequence number must pass the last colour change to count as a new colour. */
  const REORDER_THRESHOLD: int := 128

  datatype StreamState = StreamNone | StreamStart | StreamStop | StreamDone

  /** The counters of one measurement interval, as they travel behind the block header. */
  datatype Interval = Interval(startSeq: int, bytes: int, datagrams: int)

  /** `TestReport`: running totals, the totals at the last snapshot, the last interval. */
  datatype TestReport = TestReport(
    bytes: int, datagrams: int,
    snapBytes: int, snapDatagrams: int,
    lastInterval: Interval,
    snapshotCnt: int)

  /** The header of a test block together with the interval data behind it. */
  datatype Header = Header(
    seqno: int, grp: int, last: bool, ack: bool, hasInterval: bool, interval: Interval)

  /** A block handed to the transport: the header and the number of bytes sent. */
  datatype Block = Block(hdr: Header, length: int)

  const NoInterval := Interval(0, 0, 0)
  const EmptyReport := TestReport(0, 0, 0, 0, NoInterval, 0)

  /** Eight filler bytes read as a number. */
  const FILLER: int := 0x7777_7777_7777_7777

  /** What a buffer full of filler reads as, before the first stamp. */
  const FreshHeader := Header(FILLER, 1, true, true, false, Interval(FILLER, FILLER, FILLER))

  // ------------------------------------------------------------ the sending side

  /** `SnapshotRxTxReport`: close the current interval and open the next one. */
  function Snapshot(r: TestReport): TestReport {
    TestReport(
      r.bytes, r.datagrams,
      r.bytes, r.datagrams,
      Interval(r.snapDatagrams, r.bytes - r.snapBytes, r.datagrams - r.snapDatagrams),
      r.snapshotCnt + 1)
  }

  /** True when the stamp about to be made starts a new colour and so carries fresh interval data. */
  predicate Flips(r: TestReport, lastGrp: int) {
    r.snapshotCnt > 0 && lastGrp != r.snapshotCnt % 2
  }

  /**
   The header after the critical section of the send loop. The buffer is reused:
   `hasInterval` and the interval data stay from earlier blocks unless rewritten here.
   */
  function StampHeader(h: Header, r: TestReport, lastGrp: int): Header {
    var h1 := h.(seqno := r.datagrams, grp := r.snapshotCnt % 2, last := false, ack := false);
    var h2 := if r.snapshotCnt <= 0 then h1.(hasInterval := false) else h1;
    if Flips(r, lastGrp) then h2.(hasInterval := true, interval := r.lastInterval) else h2
  }

  /** The colour the sending thread remembers after the critical section. */
  function StampGrp(r: TestReport, lastGrp: int): int {
    if Flips(r, lastGrp) then r.snapshotCnt % 2 else lastGrp
  }

  /** `SendFIN`: the header of the closing block. */
  function StampFin(h: Header, r: TestReport): Header {
    h.(seqno := r.datagrams, grp := r.snapshotCnt % 2, last := true, ack := false, hasInterval := false)
  }

  /** `OnReceivedFIN`: the header of the answer, which keeps the old colour. */
  function StampFinAck(h: Header, r: TestReport): Header {
    h.(seqno := r.datagrams, last := true, ack := true, hasInterval := false)
  }

  // ---------------------------------------------------------- the receiving side

  /** The larger of two integers. */
  function MaxOf(a: int, b: int): int {
    if a < b then b else a
  }

  /** The smaller of two integers. */
  function MinOf(a: int, b: int): int {
    if a < b then a else b
  }

  /** The members of `s` that lie in `[lo, hi)`. */
  function InRange(s: set<int>, lo: int, hi: int): set<int> {
    set k | k in s && lo <= k < hi
  }

  /**
   The sequence recorder, by the contract its tests pin down: a set of sequence
   numbers whose range count stops short of the largest one recorded.
   */
  datatype SeqRecorder = SeqRecorder(recorded: set<int>, maxSeq: int) {
    predicate Valid() {
      recorded != {} ==> maxSeq in recorded && forall k :: k in recorded ==> k <= maxSeq
    }

    function Record(k: int): SeqRecorder {
      SeqRecorder(recorded + {k}, if recorded == {} then k else MaxOf(maxSeq, k))
    }

    function RecordedNumInRange(lo: int, hi: int): int {
      |InRange(recorded, lo, MinOf(hi, maxSeq))|
    }
  }

  const EmptyRecorder := SeqRecorder({}, 0)

  datatype Receiver = Receiver(
    bytes: int, datagrams: int,
    recorder: SeqRecorder,
    lastGrp: int, lastChanged: int,
    finReceived: bool)

  const FreshReceiver := Receiver(0, 0, EmptyRecorder, -1, 0, false)

  /** `HasNewGrpId`: the first block, or another colour far enough past the last change. */
  predicate HasNewGrpId(r: Receiver, grp: int, seqno: int) {
    r.lastGrp == -1 || (r.lastGrp != grp && r.lastChanged + REORDER_THRESHOLD < seqno)
  }

  /** The counting and recording every arrival gets, before the header is interpreted. */
  function CountArrival(r: Receiver, b: Block): Receiver {
    r.(bytes := r.bytes + b.length,
       datagrams := r.datagrams + 1,
       recorder := r.recorder.Record(b.hdr.seqno))
  }

  /** `ResetSeqRecord`: forget everything below `from`. */
  function Prune(rec: SeqRecorder, from: int): SeqRecorder
    requires rec.Valid()
  {
    var kept := set k | k in rec.recorded && from <= k;
    SeqRecorder(kept, if kept == {} then 0 else rec.maxSeq)
  }

  /** The boundary an interval report moves the receiver to. */
  function EndSeq(iv: Interval): int {
    iv.startSeq + iv.datagrams
  }

  /** True when the arrival of `b` makes the receiver act on the interval data in it. */
  predicate Reports(r: Receiver, b: Block) {
    HasNewGrpId(r, b.hdr.grp, b.hdr.seqno) && b.hdr.hasInterval
  }

  /** `actual_received` of the report that the arrival of `b` triggers. */
  function ActualReceived(r: Receiver, b: Block): int {
    CountArrival(r, b).recorder.RecordedNumInRange(b.hdr.interval.startSeq, EndSeq(b.hdr.interval))
  }

  /** `UpdateReceived` as a whole, for a block that passed validation. */
  function UpdateReceived(r: Receiver, b: Block): Receiver
    requires r.recorder.Valid()
  {
    var c := CountArrival(r, b);
    assert c.recorder.Valid();
    var f := if b.hdr.last && !b.hdr.ack then c.(finReceived := true) else c;
    var g := if HasNewGrpId(r, b.hdr.grp, b.hdr.seqno) then f.(lastGrp := b.hdr.grp) else f;
    if Reports(r, b) then
      g.(lastChanged := EndSeq(b.hdr.interval), recorder := Prune(g.recorder, EndSeq(b.hdr.interval)))
    else
      g
  }
}
