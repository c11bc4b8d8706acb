/**
 `IperfStream` in the form the source has it: one object whose methods update its
 counters, its reused block buffer and its sequence recorder in place. Every
 method is tied to the function of the same step in `StreamModel`, so what is
 proved about runs of those functions is about these methods.
 */
module IperfStreamObject {
  import opened Bytes
  import opened StreamModel
  import opened BlockBuffer

  class IperfStream {
    // sender_report
    var bytes: int
    var datagrams: int
    var snapBytes: int
    var snapDatagrams: int
    var lastInterval: Interval
    var snapshotCnt: int
    var lastBitrate: nat        // of the last interval, in hundredths
    var lastSnapshotAt: int
    // the colour the sending thread remembers
    var lastSentGrp: int
    // receiver_report and the state of the measurement
    var recvBytes: int
    var recvDatagrams: int
    var recorder: SeqRecorder
    var lastGrpId: int
    var seqOfLastChangedGrpId: int
    var finReceived: bool
    var streamIdentifier: nat
    // the receiver's own snapshots
    var rxSnapBytes: int
    var rxSnapDatagrams: int
    var rxLastInterval: Interval
    var rxSnapshotCnt: int
    var lastSnapshotTime: int
    var lostDatagrams: int
    // configuration: protocol number, and nine tenths of an interval in milliseconds
    const protocol: int
    const minGap: int
    // the reused block buffer
    const iperfData: array<Byte>

    ghost function Report(): TestReport
      reads this
    {
      TestReport(bytes, datagrams, snapBytes, snapDatagrams, lastInterval, snapshotCnt)
    }

    ghost function Rcv(): Receiver
      reads this
    {
      Receiver(recvBytes, recvDatagrams, recorder, lastGrpId, seqOfLastChangedGrpId, finReceived)
    }

    /** The receiving side's totals and its own snapshots. */
    ghost function RxReport(): TestReport
      reads this
    {
      TestReport(recvBytes, recvDatagrams, rxSnapBytes, rxSnapDatagrams, rxLastInterval, rxSnapshotCnt)
    }

    /** The receiver's own report, when its last snapshot was taken, and the last loss. */
    ghost function OwnSide(): Own
      reads this
    {
      Own(RxReport(), lastSnapshotTime, lostDatagrams)
    }

    /** The header the buffer currently holds. */
    ghost function Buffered(): Header
      requires iperfData.Length >= BODY
      reads this, iperfData
    {
      Parse(iperfData[..])
    }

    ghost predicate InU64(v: int) {
      0 <= v < U64
    }

    ghost predicate Valid()
      reads this, iperfData
    {
      && Sound(iperfData[..])
      && recorder.Valid()
      && InU64(bytes) && InU64(datagrams)
      && InU64(snapBytes) && InU64(snapDatagrams)
      && InU64(lastInterval.startSeq) && InU64(lastInterval.bytes) && InU64(lastInterval.datagrams)
      && 0 <= lastSentGrp <= 1 && snapshotCnt >= 0
    }

    constructor (size: nat, identifier: nat, protocol: int, interval: real)
      requires size >= BODY && identifier < U64
      ensures Valid() && fresh(iperfData) && iperfData.Length == size
      ensures this.protocol == protocol && streamIdentifier == identifier
      ensures minGap as real <= interval * 900.0 < minGap as real + 1.0
      ensures Report() == EmptyReport && Rcv() == FreshReceiver && RxReport() == EmptyReport && lastSentGrp == 0
      ensures Buffered() == FreshHeader && NumAt(iperfData[..], IDENTIFIER_AT, 8) == identifier
    {
      bytes, datagrams, snapBytes, snapDatagrams := 0, 0, 0, 0;
      lastInterval, snapshotCnt, lastSentGrp := NoInterval, 0, 0;
      lastBitrate, lastSnapshotAt := 0, 0;
      recvBytes, recvDatagrams, recorder := 0, 0, EmptyRecorder;
      lastGrpId, seqOfLastChangedGrpId, finReceived := -1, 0, false;
      rxSnapBytes, rxSnapDatagrams, rxLastInterval, rxSnapshotCnt := 0, 0, NoInterval, 0;
      lastSnapshotTime, lostDatagrams := 0, 0;
      streamIdentifier, this.protocol, minGap := identifier, protocol, (interval * 900.0).Floor;
      iperfData := new Byte[size](_ => FILL);
      new;
      ghost var blank := iperfData[..];
      StoreAt(iperfData, 0, 8, MAGIC);
      StoreAt(iperfData, IDENTIFIER_AT, 8, identifier);
      FreshWords(blank, MAGIC, identifier);
      FillerHeader(iperfData[..]);
    }

    /** The bitrate of an interval; the source divides by zero when no time has passed. */
    method SetRate(newBytes: nat, interval: nat)
      modifies this`lastBitrate
      ensures interval > 0 ==> IsNearestRate(lastBitrate, newBytes, interval)
    {
      if interval > 0 {
        lastBitrate := (200000 * newBytes + interval) / (2 * interval);
        NearestRate(newBytes, interval);
      }
    }

    /**
     `SnapshotRxTxReport` on the sending side, for an interval in milliseconds. Differences
     are taken modulo 2^64; while no counter has wrapped, the report becomes exactly its
     snapshot. The bitrate is the interval's bytes per second to the nearest hundredth.
     */
    method SnapshotRxTxReport(current: int, interval: nat)
      requires Valid()
      modifies this
      ensures Valid()
      ensures old(snapBytes) <= old(bytes) && old(snapDatagrams) <= old(datagrams) ==>
                Report() == Snapshot(old(Report()))
      ensures (old(snapBytes) + lastInterval.bytes) % U64 == bytes == old(bytes) == snapBytes
      ensures (old(snapDatagrams) + lastInterval.datagrams) % U64 == datagrams == old(datagrams) == snapDatagrams
      ensures lastInterval.startSeq == old(snapDatagrams) && snapshotCnt == old(snapshotCnt) + 1
      ensures lastSnapshotAt == current
      ensures interval > 0 ==> IsNearestRate(lastBitrate, lastInterval.bytes, interval)
      ensures Rcv() == old(Rcv()) && RxReport() == old(RxReport()) && lastSentGrp == old(lastSentGrp)
    {
      var newBytes := Minus64(bytes, snapBytes);
      var newDatagrams := Minus64(datagrams, snapDatagrams);
      lastInterval := Interval(snapDatagrams, newBytes, newDatagrams);
      snapBytes := bytes;
      snapDatagrams := datagrams;
      snapshotCnt := snapshotCnt + 1;
      lastSnapshotAt := current;
      SetRate(lastInterval.bytes, interval);
    }

    /** The critical section of the send loop: stamp the buffer for the next block. */
    method StampBlock(now: nat)
      requires Valid()
      modifies this`lastSentGrp, iperfData
      ensures Valid()
      ensures Buffered() == StampHeader(old(Buffered()), Report(), old(lastSentGrp))
      ensures FromLE(iperfData[24..32]) == now % U64
      ensures lastSentGrp == StampGrp(Report(), old(lastSentGrp))
    {
      var curSnapshotCnt := snapshotCnt;
      var flags := iperfData[FLAGS_AT];
      var grp := curSnapshotCnt % 2;
      var hasInterval := HasIntervalOf(flags);
      if curSnapshotCnt <= 0 {
        hasInterval := false;
      }
      if curSnapshotCnt > 0 && lastSentGrp != grp {
        hasInterval := true;
      }
      var newFlags := SetFlags(flags, grp, false, false, hasInterval);
      FlagsReadBack(flags, grp, false, false, hasInterval);
      WriteHeaderReads(iperfData[..], datagrams, now, newFlags);
      StoreAt(iperfData, SEQ_AT, 8, datagrams);
      StoreAt(iperfData, TIME_AT, 8, now);
      iperfData[FLAGS_AT] := newFlags;
      assert iperfData[..] == WriteHeader(old(iperfData[..]), datagrams, now, newFlags);
      HeaderTime(old(iperfData[..]), datagrams, now, newFlags);
      assert iperfData[24..32] == iperfData[..][24..32];
      if curSnapshotCnt > 0 && lastSentGrp != grp {
        lastSentGrp := grp;
        SerializeInterval(lastInterval, lastBitrate);
      }
    }

    /** `SerializeInterval`, with the buffer position the send loop uses. */
    method SerializeInterval(inter: Interval, bitrate: nat)
      requires Sound(iperfData[..])
      requires InU64(inter.bytes) && InU64(inter.datagrams) && InU64(inter.startSeq)
      modifies iperfData
      ensures Sound(iperfData[..])
      ensures Buffered() == old(Buffered()).(interval := inter)
      ensures FromLE(iperfData[64..72]) == bitrate % U64 && FromLE(iperfData[24..32]) == FromLE(old(iperfData[24..32]))
    {
      WriteIntervalReads(iperfData[..], inter, bitrate);
      IntervalBitrate(iperfData[..], inter, bitrate);
      assert iperfData[24..32] == iperfData[..][24..32];
      StoreAt(iperfData, BYTES_AT, 8, inter.bytes);
      StoreAt(iperfData, DATAGRAMS_AT, 8, inter.datagrams);
      StoreAt(iperfData, START_AT, 8, inter.startSeq);
      StoreAt(iperfData, BITRATE_AT, 8, bitrate);
      assert iperfData[24..32] == iperfData[..][24..32] && iperfData[64..72] == iperfData[..][64..72];
    }

    /** The header part of `SendFIN`. */
    method StampFinBlock(now: nat)
      requires Valid()
      modifies iperfData
      ensures Valid()
      ensures Buffered() == StampFin(old(Buffered()), Report())
      ensures FromLE(iperfData[24..32]) == now % U64
    {
      var newFlags := SetFlags(iperfData[FLAGS_AT], snapshotCnt % 2, true, false, false);
      FlagsReadBack(iperfData[FLAGS_AT], snapshotCnt % 2, true, false, false);
      WriteHeaderReads(iperfData[..], datagrams, now, newFlags);
      StoreAt(iperfData, SEQ_AT, 8, datagrams);
      StoreAt(iperfData, TIME_AT, 8, now);
      iperfData[FLAGS_AT] := newFlags;
      assert iperfData[..] == WriteHeader(old(iperfData[..]), datagrams, now, newFlags);
      HeaderTime(old(iperfData[..]), datagrams, now, newFlags);
      assert iperfData[24..32] == iperfData[..][24..32];
    }

    /** The header part of `OnReceivedFIN`; colour and time stay as they are. */
    method StampFinAckBlock()
      requires Valid()
      modifies iperfData
      ensures Valid()
      ensures Buffered() == StampFinAck(old(Buffered()), Report())
      ensures Buffered().last && Buffered().ack && !Buffered().hasInterval && Buffered().seqno == datagrams
      ensures Buffered().grp == old(Buffered()).grp && iperfData[24..32] == old(iperfData[24..32])
    {
      var flags := iperfData[FLAGS_AT];
      var newFlags := SetFlags(flags, GrpOf(flags), true, true, false);
      FlagsReadBack(flags, GrpOf(flags), true, true, false);
      ghost var was := iperfData[..];
      ghost var time := NumAt(was, TIME_AT, 8);
      WriteHeaderReads(was, datagrams, time, newFlags);
      StoreAt(iperfData, SEQ_AT, 8, datagrams);
      LoadElsewhere(was, SEQ_AT, 8, datagrams, TIME_AT, 8);
      StoreBack(iperfData[..], TIME_AT, 8);
      iperfData[FLAGS_AT] := newFlags;
      assert iperfData[..] == WriteHeader(was, datagrams, time, newFlags);
    }

    /** `summary.bytes += length`, the first of the two counter updates; it wraps at 2^64. */
    method AddBytes(length: nat)
      requires Valid()
      modifies this`bytes
      ensures Valid()
      ensures Report() == old(Report()).(bytes := (old(bytes) + length) % U64)
    {
      bytes := (bytes + length) % U64;
    }

    /** `summary.datagrams += 1`, the second one; a snapshot may fall in between. */
    method AddDatagram()
      requires Valid()
      modifies this`datagrams
      ensures Valid()
      ensures Report() == old(Report()).(datagrams := (old(datagrams) + 1) % U64)
    {
      datagrams := (datagrams + 1) % U64;
    }

    /**
     Whatever is stamped, any piece of the buffer that a sender may hand out is accepted,
     and from 72 bytes on the receiver reads out of it what was stamped.
     */
    lemma EmittedBlockValidates(length: nat)
      requires Valid() && 8 <= length <= iperfData.Length
      ensures Validates(iperfData[..length], length)
      ensures length >= BODY ==> Parse(iperfData[..length]) == Buffered()
    {
      SoundValidates(iperfData[..], length);
      assert iperfData[..][..length] == iperfData[..length];
      if length >= BODY {
        PieceReads(iperfData[..], length);
      }
    }

    /** `HasNewGrpId`. */
    method HasNewGrpId(flag: int, seqno: int) returns (isNew: bool)
      modifies this`lastGrpId
      ensures isNew == StreamModel.HasNewGrpId(old(Rcv()), flag, seqno)
      ensures lastGrpId == if isNew then flag else old(lastGrpId)
      ensures isNew <==>
                old(lastGrpId) == -1 || (old(lastGrpId) != flag && seqOfLastChangedGrpId + 128 < seqno)
    {
      if lastGrpId == -1 {
        lastGrpId := flag;
        return true;
      }
      if lastGrpId != flag && seqOfLastChangedGrpId + REORDER_THRESHOLD < seqno {
        lastGrpId := flag;
        return true;
      }
      return false;
    }

    /** `ResetSeqRecord`: save what lies at or beyond the boundary, clear, record it again. */
    method ResetSeqRecord()
      requires recorder.Valid() && recorder.recorded != {}
      modifies this`recorder
      ensures recorder.Valid()
      ensures recorder == Prune(old(recorder), seqOfLastChangedGrpId)
    {
      var extra: seq<int> := [];
      var i := seqOfLastChangedGrpId;
      while i <= recorder.maxSeq
        invariant forall k :: k in extra <==> k in recorder.recorded && seqOfLastChangedGrpId <= k < i
        decreases recorder.maxSeq + 1 - i
      {
        if i in recorder.recorded {
          extra := extra + [i];
        }
        i := i + 1;
      }
      ghost var kept := Prune(recorder, seqOfLastChangedGrpId).recorded;
      assert forall k :: k in extra <==> k in kept;
      recorder := EmptyRecorder;
      var j := 0;
      while j < |extra|
        invariant 0 <= j <= |extra|
        invariant recorder.Valid()
        invariant forall k :: k in recorder.recorded <==> k in extra[..j]
        invariant recorder.recorded == {} ==> recorder.maxSeq == 0
      {
        assert extra[..j + 1] == extra[..j] + [extra[j]];
        recorder := recorder.Record(extra[j]);
        j := j + 1;
      }
      assert extra[..j] == extra;
      assert forall k :: k in recorder.recorded <==> k in kept;
    }

    /**
     `OnReceivedIntervalData` on the receiving side, up to the printing: the boundary and
     the recorder always move on; the receiver's own snapshot is taken unless the last
     one is too recent.
     */
    method OnReceivedIntervalData(inter: Interval, now: int) returns (actual: int)
      requires recorder.Valid() && recorder.recorded != {}
      modifies this`recorder, this`seqOfLastChangedGrpId, this`rxSnapBytes, this`rxSnapDatagrams,
               this`rxLastInterval, this`rxSnapshotCnt, this`lastSnapshotTime, this`lostDatagrams
      ensures recorder.Valid()
      ensures actual == old(recorder).RecordedNumInRange(inter.startSeq, EndSeq(inter))
      ensures seqOfLastChangedGrpId == EndSeq(inter)
      ensures recorder == Prune(old(recorder), EndSeq(inter))
      ensures now - old(lastSnapshotTime) < minGap && old(lastSnapshotTime) - now < minGap ==>
                OwnSide() == old(OwnSide())
      ensures now - old(lastSnapshotTime) >= minGap || old(lastSnapshotTime) - now >= minGap ==>
                OwnSide() == Snapped(old(RxReport()), inter, actual, now)
    {
      var interval := Gap(now, lastSnapshotTime);
      seqOfLastChangedGrpId := inter.startSeq + inter.datagrams;
      actual := recorder.RecordedNumInRange(inter.startSeq, seqOfLastChangedGrpId);
      ResetSeqRecord();
      if interval < minGap {
        return;
      }
      rxLastInterval := Interval(rxSnapDatagrams, recvBytes - rxSnapBytes, recvDatagrams - rxSnapDatagrams);
      rxSnapBytes, rxSnapDatagrams := recvBytes, recvDatagrams;
      lastSnapshotTime, rxSnapshotCnt := now, rxSnapshotCnt + 1;
      rxLastInterval := rxLastInterval.(startSeq := inter.startSeq);
      lostDatagrams := inter.datagrams - actual;
    }

    /**
     The part of `UpdateReceived` behind the two checks, for a block that has been counted
     and recorded; `was` is the receiving side before that. `actual` is meaningful when
     `reported`, which says whether interval data was acted on.
     */
    method TakeBlock(b: Block, now: int, ghost was: Receiver) returns (reported: bool, actual: int)
      requires was.recorder.Valid() && Rcv() == CountArrival(was, b)
      modifies this`recorder, this`finReceived, this`lastGrpId, this`seqOfLastChangedGrpId, this`rxSnapBytes,
               this`rxSnapDatagrams, this`rxLastInterval, this`rxSnapshotCnt, this`lastSnapshotTime, this`lostDatagrams
      ensures recorder.Valid() && Rcv() == StreamModel.UpdateReceived(was, b)
      ensures reported == Reports(was, b) && (reported ==> actual == ActualReceived(was, b))
      ensures !reported || (now - old(lastSnapshotTime) < minGap && old(lastSnapshotTime) - now < minGap) ==>
                OwnSide() == old(OwnSide())
      ensures reported && (now - old(lastSnapshotTime) >= minGap || old(lastSnapshotTime) - now >= minGap) ==>
                OwnSide() == Snapped(old(RxReport()), b.hdr.interval, actual, now)
    {
      if b.hdr.last && !b.hdr.ack {
        finReceived := true;
      }
      var isNew := HasNewGrpId(b.hdr.grp, b.hdr.seqno);
      reported, actual := isNew && b.hdr.hasInterval, 0;
      if reported {
        actual := OnReceivedIntervalData(b.hdr.interval, now);
      }
    }

    /** The counting at the start of `UpdateReceived`. */
    method Count(length: int, now: int)
      modifies this`lastSnapshotTime, this`recvBytes, this`recvDatagrams
      ensures recvBytes == old(recvBytes) + length && recvDatagrams == old(recvDatagrams) + 1
      ensures lastSnapshotTime == if old(recvBytes) == 0 then now else old(lastSnapshotTime)
    {
      if recvBytes == 0 {
        lastSnapshotTime := now;
      }
      recvBytes := recvBytes + length;
      recvDatagrams := recvDatagrams + 1;
    }

    /** The check of the first number on a stream; the identifier is learned from the first block. */
    method CheckStart(data: array<Byte>, seqno: int) returns (bad: bool)
      requires data.Length >= BODY
      modifies this`streamIdentifier
      ensures bad == (old(streamIdentifier) == 0 && seqno != 0 && (protocol == 1 || protocol == 10))
      ensures streamIdentifier ==
                if old(streamIdentifier) == 0 then NumAt(data[..], IDENTIFIER_AT, 8) else old(streamIdentifier)
    {
      bad := false;
      if streamIdentifier == 0 {
        streamIdentifier := LoadAt(data, IDENTIFIER_AT, 8);
        bad := seqno != 0 && (protocol == 1 || protocol == 10);
      }
    }

    /** `UpdateReceived` up to the two checks: a block that passes them has been counted and recorded. */
    method Screen(data: array<Byte>, length: int, now: int) returns (outcome: Outcome)
      requires recorder.Valid() && data.Length >= BODY && length <= data.Length
      modifies this`lastSnapshotTime, this`recvBytes, this`recvDatagrams, this`recorder, this`streamIdentifier
      ensures recorder.Valid() && outcome == Screened(protocol, old(streamIdentifier), data[..], length)
      ensures outcome == Ignored ==> Rcv() == old(Rcv()) && lastSnapshotTime == old(lastSnapshotTime)
      ensures outcome == Taken ==> lastSnapshotTime == if old(recvBytes) == 0 then now else old(lastSnapshotTime)
      ensures outcome == Taken ==> Rcv() == CountArrival(old(Rcv()), Block(Parse(data[..]), length))
      ensures outcome == Taken && old(streamIdentifier) == 0 ==>
                streamIdentifier == NumAt(data[..], IDENTIFIER_AT, 8)
      ensures old(streamIdentifier) != 0 ==> streamIdentifier == old(streamIdentifier)
    {
      if length <= 0 {
        return Ignored;
      }
      Count(length, now);
      if protocol != 2 {
        var ok := ValidateReceivedData(data, length);
        if !ok {
          return Corrupt;
        }
      }
      var seqno := LoadAt(data, SEQ_AT, 8);
      recorder := recorder.Record(seqno);
      var bad := CheckStart(data, seqno);
      return if bad then BadStart else Taken;
    }

    /**
     `UpdateReceived` on the bytes of one arrival. The two outcomes `Corrupt` and
     `BadStart` end the process; otherwise the receiving side becomes that of the step
     in `StreamModel` for the block the bytes read as.
     */
    method UpdateReceived(data: array<Byte>, length: int, now: int)
      returns (outcome: Outcome, reported: bool, actual: int)
      requires recorder.Valid() && data.Length >= BODY && length <= data.Length
      modifies this`lastSnapshotTime, this`recvBytes, this`recvDatagrams, this`streamIdentifier,
               this`recorder, this`finReceived, this`lastGrpId, this`seqOfLastChangedGrpId, this`rxSnapBytes,
               this`rxSnapDatagrams, this`rxLastInterval, this`rxSnapshotCnt, this`lostDatagrams
      ensures recorder.Valid()
      ensures outcome == Ignored <==> length <= 0
      ensures reported ==> outcome == Taken
      ensures outcome == Corrupt <==>
                length > 0 && protocol != 2
                && !(&& FromLE(data[0..8]) == 0xa1b2_c3d4_a5b6_c7d8
                     && (length > 72 ==> data[72] == 0x77 && data[length - 1] == 0x77)
                     && (length > 1572 ==> data[length - 1501] == 0x77))
      ensures outcome == BadStart <==>
                length > 0 && outcome != Corrupt && old(streamIdentifier) == 0
                && (protocol == 1 || protocol == 10) && FromLE(data[16..24]) != 0
      ensures outcome == Ignored ==> Rcv() == old(Rcv()) && OwnSide() == old(OwnSide())
      ensures outcome == Taken && reported ==>
                var before := if old(recvBytes) == 0 then now else old(lastSnapshotTime);
                var r := old(RxReport()).(bytes := recvBytes, datagrams := recvDatagrams);
                if now - before >= minGap || before - now >= minGap
                then OwnSide() == Snapped(r, Parse(data[..]).interval, actual, now)
                else OwnSide() == Own(r, before, old(lostDatagrams))
      ensures outcome == Taken && !reported ==>
                && RxReport() == old(RxReport()).(bytes := recvBytes, datagrams := recvDatagrams)
                && lastSnapshotTime == if old(recvBytes) == 0 then now else old(lastSnapshotTime)
      ensures outcome == Taken ==>
                var b := Block(Parse(data[..]), length);
                && Rcv() == StreamModel.UpdateReceived(old(Rcv()), b)
                && reported == Reports(old(Rcv()), b)
                && (reported ==> actual == ActualReceived(old(Rcv()), b))
      ensures outcome == Taken && old(streamIdentifier) == 0 ==>
                streamIdentifier == NumAt(data[..], IDENTIFIER_AT, 8)
      ensures old(streamIdentifier) != 0 ==> streamIdentifier == old(streamIdentifier)
    {
      reported, actual := false, 0;
      ghost var was := Rcv();
      ScreenedMeans(protocol, streamIdentifier, data[..], length);
      assert data[..][0..8] == data[0..8] && data[..][16..24] == data[16..24];
      outcome := Screen(data, length, now);
      if outcome == Taken {
        reported, actual := TakeBlock(Block(Parse(data[..]), length), now, was);
      }
    }
  }

  /** What comes of one arrival. */
  datatype Outcome = Ignored | Corrupt | BadStart | Taken

  /**
   The checks on an arrival: blocks of protocol 2 are not validated, and only the
   protocols 1 and 10 insist on the number 0 in the first block.
   */
  function Screened(protocol: int, identifier: nat, s: seq<Byte>, length: int): Outcome
    requires |s| >= BODY && length <= |s|
  {
    if length <= 0 then Ignored
    else if protocol != 2 && !Validates(s, length) then Corrupt
    else if identifier == 0 && (protocol == 1 || protocol == 10) && NumAt(s, SEQ_AT, 8) != 0 then BadStart
    else Taken
  }

  /** The same over the bytes themselves. */
  lemma ScreenedMeans(protocol: int, identifier: nat, s: seq<Byte>, length: int)
    requires |s| >= 72 && length <= |s|
    ensures var o := Screened(protocol, identifier, s, length);
            && (o == Ignored <==> length <= 0)
            && (o == Corrupt <==>
                  length > 0 && protocol != 2
                  && !(&& FromLE(s[0..8]) == 0xa1b2_c3d4_a5b6_c7d8
                       && (length > 72 ==> s[72] == 0x77 && s[length - 1] == 0x77)
                       && (length > 1572 ==> s[length - 1501] == 0x77)))
            && (o == BadStart <==>
                  length > 0 && o != Corrupt && identifier == 0
                  && (protocol == 1 || protocol == 10) && FromLE(s[16..24]) != 0)
  {
  }

  /** A block of a sender's buffer with one probed byte changed ends the receiver, unless the protocol is 2. */
  lemma ChangedBlockIsCorrupt(s: seq<Byte>, length: int, at: int, v: Byte, protocol: int, identifier: nat)
    requires Sound(s) && 72 < length <= |s| && v != 0x77 && protocol != 2
    requires at == 72 || at == length - 1 || (length > 1572 && at == length - 1501)
    ensures Screened(protocol, identifier, s[at := v], length) == Corrupt
  {
    ChangedByteIsRefused(s, length, at, v);
  }

  /** The receiver's own report, the time of its last snapshot and the last loss. */
  datatype Own = Own(report: TestReport, at: int, lost: int)

  /** After a snapshot of its own: the interval starts where the sender's did, the rest is lost. */
  ghost function Snapped(r: TestReport, inter: Interval, actual: int, now: int): Own {
    Own(TestReport(r.bytes, r.datagrams, r.bytes, r.datagrams,
                   Interval(inter.startSeq, r.bytes - r.snapBytes, r.datagrams - r.snapDatagrams),
                   r.snapshotCnt + 1),
        now, inter.datagrams - actual)
  }

  /** `r` hundredths are the bytes per second over an interval in milliseconds, to within half a hundredth. */
  ghost predicate IsNearestRate(r: nat, bytes: int, interval: nat) {
    2 * r * interval <= 200000 * bytes + interval < 2 * (r + 1) * interval
  }

  lemma NearestRate(bytes: nat, interval: nat)
    requires interval > 0
    ensures (200000 * bytes + interval) / (2 * interval) >= 0
    ensures IsNearestRate((200000 * bytes + interval) / (2 * interval), bytes, interval)
  {
    var x, m := 200000 * bytes + interval, 2 * interval;
    assert x == x / m * m + x % m;
  }

  /** The distance of two clock readings. */
  function Gap(a: int, b: int): int {
    if a < b then b - a else a - b
  }

  /** Subtraction of unsigned 64-bit numbers. */
  function Minus64(a: int, b: int): (r: int)
    requires 0 <= a < U64 && 0 <= b < U64
    ensures 0 <= r < U64 && (b + r) % U64 == a
  {
    if a < b then a - b + U64 else a - b
  }

  /** A buffer of filler with two words stored at its start. */
  lemma FreshWords(blank: seq<Byte>, magic: nat, identifier: nat)
    requires |blank| >= BODY && magic < U64 && identifier < U64 && forall i :: 0 <= i < |blank| ==> blank[i] == FILL
    ensures var s := Store(Store(blank, 0, 8, magic), IDENTIFIER_AT, 8, identifier);
            && NumAt(s, 0, 8) == magic && NumAt(s, IDENTIFIER_AT, 8) == identifier
            && forall i :: SEQ_AT <= i < |s| ==> s[i] == FILL
  {
    var s1 := Store(blank, 0, 8, magic);
    LoadWord(blank, 0, magic);
    LoadWord(s1, IDENTIFIER_AT, identifier);
    LoadElsewhere(s1, IDENTIFIER_AT, 8, identifier, 0, 8);
    assert s1[8..] == blank[8..];
    var s := Store(s1, IDENTIFIER_AT, 8, identifier);
    assert s[SEQ_AT..] == s1[SEQ_AT..] == blank[8..][8..];
    assert forall i :: SEQ_AT <= i < |s| ==> s[i] == s[SEQ_AT..][i - SEQ_AT] == blank[i];
  }

  lemma FillerHeader(s: seq<Byte>)
    requires |s| >= BODY && forall i :: SEQ_AT <= i < |s| ==> s[i] == FILL
    ensures Parse(s) == FreshHeader
  {
    FillerReads(s, SEQ_AT);
    FillerReads(s, BYTES_AT);
    FillerReads(s, DATAGRAMS_AT);
    FillerReads(s, START_AT);
  }

  /** Eight filler bytes read as the filler number. */
  lemma FillerReads(s: seq<Byte>, at: nat)
    requires at + 8 <= |s| && forall i :: at <= i < at + 8 ==> s[i] == FILL
    ensures NumAt(s, at, 8) == FILLER
  {
    var w := s[at..at + 8];
    assert w == [FILL, FILL, FILL, FILL, FILL, FILL, FILL, FILL];
    assert FromLE(w[8..]) == 0;
    assert FromLE(w[7..]) == 0x77 by { assert w[7..][1..] == w[8..]; }
    assert FromLE(w[6..]) == 0x7777 by { assert w[6..][1..] == w[7..]; }
    assert FromLE(w[5..]) == 0x77_7777 by { assert w[5..][1..] == w[6..]; }
    assert FromLE(w[4..]) == 0x7777_7777 by { assert w[4..][1..] == w[5..]; }
    assert FromLE(w[3..]) == 0x77_7777_7777 by { assert w[3..][1..] == w[4..]; }
    assert FromLE(w[2..]) == 0x7777_7777_7777 by { assert w[2..][1..] == w[3..]; }
    assert FromLE(w[1..]) == 0x77_7777_7777_7777 by { assert w[1..][1..] == w[2..]; }
    assert w[0..] == w;
  }
}
