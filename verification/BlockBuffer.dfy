/**
 The reused block buffer `iperf_data_` of `example/iperf-bats/iperf_stream.cc`,
 byte by byte: a 40-byte header, 32 bytes of interval data, then filler.

 Layout of the header: magic at 0, stream identifier at 8, sequence number at 16,
 time at 24, the flag bits in the byte at 32, and padding up to 40.
 */
module BlockBuffer {
  import opened Bytes
  import opened StreamModel

  const HEADER_SIZE: nat := 40
  const INTERVAL_SIZE: nat := 32
  const BODY: nat := HEADER_SIZE + INTERVAL_SIZE
  const LINK_MTU: nat := 1500
  const FILL: Byte := 0x77

  const IDENTIFIER_AT: nat := 8
  const SEQ_AT: nat := 16
  const TIME_AT: nat := 24
  const FLAGS_AT: nat := 32
  const BYTES_AT: nat := 40
  const DATAGRAMS_AT: nat := 48
  const START_AT: nat := 56
  const BITRATE_AT: nat := 64

  // --------------------------------------------------------------- the flag bits

  /** The flag byte with its four low bits replaced; the reserved bits stay. */
  function SetFlags(f: Byte, grp: int, last: bool, ack: bool, hasInterval: bool): Byte
    requires 0 <= grp <= 1
  {
    f / 16 * 16 + grp + 2 * Bit(last) + 4 * Bit(ack) + 8 * Bit(hasInterval)
  }

  function GrpOf(f: Byte): int { f % 2 }
  predicate LastOf(f: Byte) { f / 2 % 2 == 1 }
  predicate AckOf(f: Byte) { f / 4 % 2 == 1 }
  predicate HasIntervalOf(f: Byte) { f / 8 % 2 == 1 }

  lemma FlagsReadBack(f: Byte, grp: int, last: bool, ack: bool, hasInterval: bool)
    requires 0 <= grp <= 1
    ensures var g := SetFlags(f, grp, last, ack, hasInterval);
            GrpOf(g) == grp && LastOf(g) == last && AckOf(g) == ack && HasIntervalOf(g) == hasInterval
  {
    var r3 := Bit(hasInterval) + 2 * (f / 16);
    var r2 := Bit(ack) + 2 * r3;
    var r1 := Bit(last) + 2 * r2;
    var g := SetFlags(f, grp, last, ack, hasInterval);
    assert g == grp + 2 * r1;
    assert g / 2 == r1 && g / 4 == r2 && g / 8 == r3;
  }

  // ------------------------------------------------------------- reading a block

  /** The header and interval data a receiver reads out of a block. */
  function Parse(s: seq<Byte>): Header
    requires |s| >= BODY
  {
    var f := s[FLAGS_AT];
    Header(NumAt(s, SEQ_AT, 8), GrpOf(f), LastOf(f), AckOf(f), HasIntervalOf(f),
           Interval(NumAt(s, START_AT, 8), NumAt(s, BYTES_AT, 8), NumAt(s, DATAGRAMS_AT, 8)))
  }

  /** Where the fields of a block lie. */
  lemma WireLayout(s: seq<Byte>)
    requires |s| >= 72
    ensures var h, f := Parse(s), s[32];
            && h.seqno == FromLE(s[16..24])
            && h.grp == f % 2 && (h.last <==> f / 2 % 2 == 1) && (h.ack <==> f / 4 % 2 == 1)
            && (h.hasInterval <==> f / 8 % 2 == 1)
            && h.interval.bytes == FromLE(s[40..48]) && h.interval.datagrams == FromLE(s[48..56])
            && h.interval.startSeq == FromLE(s[56..64])
  {
  }

  /** What `ValidateReceivedData` looks for in `length` bytes; the magic number is read from any block. */
  predicate Validates(s: seq<Byte>, length: int)
    requires |s| >= 8 && length <= |s|
  {
    && NumAt(s, 0, 8) == MAGIC
    && (length > BODY ==>
          && s[BODY] == FILL
          && s[length - 1] == FILL
          && (length > LINK_MTU + BODY ==> s[length - 1 - LINK_MTU] == FILL))
  }

  // ------------------------------------------------------ what every write keeps

  /** The magic number is in place and everything behind the interval data is filler. */
  ghost predicate Sound(s: seq<Byte>) {
    && |s| >= BODY
    && NumAt(s, 0, 8) == MAGIC
    && forall i :: BODY <= i < |s| ==> s[i] == FILL
  }

  /** However long a piece of a sound buffer is sent, the receiver accepts it. */
  lemma SoundValidates(s: seq<Byte>, length: nat)
    requires Sound(s) && 8 <= length <= |s|
    ensures Validates(s[..length], length)
  {
    assert s[..length][0..8] == s[0..8];
  }

  /**
   A block that fails one probe is refused: one other byte behind the interval data, at the
   end, or 1500 before it, or another magic number, makes it corrupt.
   */
  lemma ChangedByteIsRefused(s: seq<Byte>, length: int, at: int, v: Byte)
    requires 72 < length <= |s| && v != 0x77
    requires at == 72 || at == length - 1 || (length > 1572 && at == length - 1501)
    ensures !Validates(s[at := v], length)
  {
  }

  lemma WrongMagicIsRefused(s: seq<Byte>, length: int)
    requires |s| >= 8 && length <= |s| && FromLE(s[0..8]) != 0xa1b2_c3d4_a5b6_c7d8
    ensures !Validates(s, length)
  {
  }

  /** A block that reaches past the interval data reads as the buffer it was cut from. */
  lemma PieceReads(s: seq<Byte>, length: nat)
    requires BODY <= length <= |s|
    ensures Parse(s[..length]) == Parse(s)
    ensures NumAt(s[..length], IDENTIFIER_AT, 8) == NumAt(s, IDENTIFIER_AT, 8)
  {
    forall at: nat | at + 8 <= BODY
      ensures NumAt(s[..length], at, 8) == NumAt(s, at, 8)
    {
      assert s[..length][at..at + 8] == s[at..at + 8];
    }
  }

  /** A store between the magic number and the filler leaves both alone. */
  lemma StoreKeepsSound(s: seq<Byte>, off: nat, n: nat, v: nat)
    requires Sound(s) && 8 <= off && off + n <= BODY
    ensures Sound(Store(s, off, n, v))
  {
    LoadElsewhere(s, off, n, v, 0, 8);
  }

  lemma FlagsKeepSound(s: seq<Byte>, f: Byte)
    requires Sound(s)
    ensures Sound(s[FLAGS_AT := f])
  {
    assert s[FLAGS_AT := f][0..8] == s[0..8];
  }

  /** The writes of one stamp, in order, as a function of the buffer. */
  function WriteHeader(s: seq<Byte>, seqno: nat, time: nat, f: Byte): (r: seq<Byte>)
    requires |s| >= BODY
    ensures |r| == |s|
  {
    Store(Store(s, SEQ_AT, 8, seqno), TIME_AT, 8, time)[FLAGS_AT := f]
  }

  function WriteInterval(s: seq<Byte>, iv: Interval, bitrate: nat): (r: seq<Byte>)
    requires |s| >= BODY
    requires iv.bytes >= 0 && iv.datagrams >= 0 && iv.startSeq >= 0
    ensures |r| == |s|
  {
    Store(Store(Store(Store(s, BYTES_AT, 8, iv.bytes), DATAGRAMS_AT, 8, iv.datagrams),
                START_AT, 8, iv.startSeq), BITRATE_AT, 8, bitrate)
  }

  lemma WriteHeaderReads(s: seq<Byte>, seqno: nat, time: nat, f: Byte)
    requires Sound(s) && seqno < U64
    ensures var r := WriteHeader(s, seqno, time, f);
            && Sound(r)
            && Parse(r) == Parse(s).(seqno := seqno, grp := GrpOf(f), last := LastOf(f), ack := AckOf(f),
                                     hasInterval := HasIntervalOf(f))
  {
    var s1 := Store(s, SEQ_AT, 8, seqno);
    var s2 := Store(s1, TIME_AT, 8, time);
    var s3 := s2[FLAGS_AT := f];
    StoreKeepsSound(s, SEQ_AT, 8, seqno);
    StoreKeepsSound(s1, TIME_AT, 8, time);
    FlagsKeepSound(s2, f);
    LoadWord(s, SEQ_AT, seqno);
    LoadElsewhere(s1, TIME_AT, 8, time, SEQ_AT, 8);
    assert s3[SEQ_AT..SEQ_AT + 8] == s2[SEQ_AT..SEQ_AT + 8];
    forall at | at == BYTES_AT || at == DATAGRAMS_AT || at == START_AT
      ensures NumAt(s3, at, 8) == NumAt(s, at, 8)
    {
      LoadElsewhere(s, SEQ_AT, 8, seqno, at, 8);
      LoadElsewhere(s1, TIME_AT, 8, time, at, 8);
      assert s3[at..at + 8] == s2[at..at + 8];
    }
  }

  lemma WriteIntervalKeepsSound(s: seq<Byte>, iv: Interval, bitrate: nat)
    requires Sound(s)
    requires iv.bytes >= 0 && iv.datagrams >= 0 && iv.startSeq >= 0
    ensures var r := WriteInterval(s, iv, bitrate);
            Sound(r) && r[..HEADER_SIZE] == s[..HEADER_SIZE]
  {
    var s1 := Store(s, BYTES_AT, 8, iv.bytes);
    var s2 := Store(s1, DATAGRAMS_AT, 8, iv.datagrams);
    var s3 := Store(s2, START_AT, 8, iv.startSeq);
    StoreKeepsSound(s, BYTES_AT, 8, iv.bytes);
    StoreKeepsSound(s1, DATAGRAMS_AT, 8, iv.datagrams);
    StoreKeepsSound(s2, START_AT, 8, iv.startSeq);
    StoreKeepsSound(s3, BITRATE_AT, 8, bitrate);
  }

  lemma LoadWord(s: seq<Byte>, off: nat, v: nat)
    requires off + 8 <= |s| && v < U64
    ensures NumAt(Store(s, off, 8, v), off, 8) == v
  {
    Limits();
    LoadStored(s, off, 8, v);
  }

  lemma IntervalNumbersRead(s: seq<Byte>, iv: Interval, bitrate: nat)
    requires |s| >= BODY
    requires 0 <= iv.bytes < U64 && 0 <= iv.datagrams < U64 && 0 <= iv.startSeq < U64
    ensures var r := WriteInterval(s, iv, bitrate);
            && NumAt(r, BYTES_AT, 8) == iv.bytes
            && NumAt(r, DATAGRAMS_AT, 8) == iv.datagrams
            && NumAt(r, START_AT, 8) == iv.startSeq
  {
    var s1 := Store(s, BYTES_AT, 8, iv.bytes);
    var s2 := Store(s1, DATAGRAMS_AT, 8, iv.datagrams);
    var s3 := Store(s2, START_AT, 8, iv.startSeq);
    var s4 := Store(s3, BITRATE_AT, 8, bitrate);
    assert NumAt(s4, BYTES_AT, 8) == iv.bytes by {
      LoadWord(s, BYTES_AT, iv.bytes);
      LoadElsewhere(s1, DATAGRAMS_AT, 8, iv.datagrams, BYTES_AT, 8);
      LoadElsewhere(s2, START_AT, 8, iv.startSeq, BYTES_AT, 8);
      LoadElsewhere(s3, BITRATE_AT, 8, bitrate, BYTES_AT, 8);
    }
    assert NumAt(s4, DATAGRAMS_AT, 8) == iv.datagrams by {
      LoadWord(s1, DATAGRAMS_AT, iv.datagrams);
      LoadElsewhere(s2, START_AT, 8, iv.startSeq, DATAGRAMS_AT, 8);
      LoadElsewhere(s3, BITRATE_AT, 8, bitrate, DATAGRAMS_AT, 8);
    }
    assert NumAt(s4, START_AT, 8) == iv.startSeq by {
      LoadWord(s2, START_AT, iv.startSeq);
      LoadElsewhere(s3, BITRATE_AT, 8, bitrate, START_AT, 8);
    }
  }

  lemma WriteIntervalReads(s: seq<Byte>, iv: Interval, bitrate: nat)
    requires Sound(s)
    requires 0 <= iv.bytes < U64 && 0 <= iv.datagrams < U64 && 0 <= iv.startSeq < U64
    ensures var r := WriteInterval(s, iv, bitrate);
            Sound(r) && Parse(r) == Parse(s).(interval := iv)
  {
    WriteIntervalKeepsSound(s, iv, bitrate);
    IntervalNumbersRead(s, iv, bitrate);
    var r := WriteInterval(s, iv, bitrate);
    assert r[SEQ_AT..SEQ_AT + 8] == r[..HEADER_SIZE][SEQ_AT..SEQ_AT + 8] == s[SEQ_AT..SEQ_AT + 8];
    assert r[FLAGS_AT] == r[..HEADER_SIZE][FLAGS_AT] == s[FLAGS_AT];
  }

  // ------------------------------------------------------------------ whole runs

  /** The writes a sender or a receiver makes to its buffer before handing it out. */
  datatype Write =
    | HeaderWrite(seqno: nat, time: nat, flags: Byte)
    | IntervalWrite(startSeq: nat, bytes: nat, datagrams: nat, bitrate: nat)

  function Perform(s: seq<Byte>, w: Write): (r: seq<Byte>)
    requires |s| >= BODY
    ensures |r| == |s|
  {
    match w
    case HeaderWrite(seqno, time, flags) => WriteHeader(s, seqno, time, flags)
    case IntervalWrite(startSeq, bytes, datagrams, bitrate) =>
      WriteInterval(s, Interval(startSeq, bytes, datagrams), bitrate)
  }

  function PerformAll(s: seq<Byte>, ws: seq<Write>): (r: seq<Byte>)
    requires |s| >= BODY
    ensures |r| == |s|
  {
    if ws == [] then s else Perform(PerformAll(s, ws[..|ws| - 1]), ws[|ws| - 1])
  }

  lemma {:induction false} PerformAllKeepsSound(s: seq<Byte>, ws: seq<Write>)
    requires Sound(s)
    ensures Sound(PerformAll(s, ws))
  {
    if ws != [] {
      PerformAllKeepsSound(s, ws[..|ws| - 1]);
      var t := PerformAll(s, ws[..|ws| - 1]);
      match ws[|ws| - 1]
      case HeaderWrite(seqno, time, flags) =>
        StoreKeepsSound(t, SEQ_AT, 8, seqno);
        StoreKeepsSound(Store(t, SEQ_AT, 8, seqno), TIME_AT, 8, time);
        FlagsKeepSound(Store(Store(t, SEQ_AT, 8, seqno), TIME_AT, 8, time), flags);
      case IntervalWrite(startSeq, bytes, datagrams, bitrate) =>
        WriteIntervalKeepsSound(t, Interval(startSeq, bytes, datagrams), bitrate);
    }
  }

  /** After any run of stamps, a block of any length that holds the magic number is accepted. */
  lemma EveryEmittedBlockValidates(s: seq<Byte>, ws: seq<Write>, length: nat)
    requires Sound(s) && 8 <= length <= |s|
    ensures Validates(PerformAll(s, ws)[..length], length)
  {
    PerformAllKeepsSound(s, ws);
    SoundValidates(PerformAll(s, ws), length);
  }

  /** The time stored with a header, and what an interval write leaves of it. */
  lemma HeaderTime(s: seq<Byte>, seqno: nat, time: nat, f: Byte)
    requires |s| >= BODY
    ensures NumAt(WriteHeader(s, seqno, time, f), TIME_AT, 8) == time % U64
  {
    Limits();
    var s1 := Store(s, SEQ_AT, 8, seqno);
    LoadStored(s1, TIME_AT, 8, time);
    var s2 := Store(s1, TIME_AT, 8, time);
    assert s2[FLAGS_AT := f][24..32] == s2[24..32];
  }

  lemma IntervalBitrate(s: seq<Byte>, iv: Interval, bitrate: nat)
    requires |s| >= BODY
    requires iv.bytes >= 0 && iv.datagrams >= 0 && iv.startSeq >= 0
    ensures NumAt(WriteInterval(s, iv, bitrate), BITRATE_AT, 8) == bitrate % U64
    ensures NumAt(WriteInterval(s, iv, bitrate), TIME_AT, 8) == NumAt(s, TIME_AT, 8)
  {
    Limits();
    var s1 := Store(s, BYTES_AT, 8, iv.bytes);
    var s2 := Store(s1, DATAGRAMS_AT, 8, iv.datagrams);
    var s3 := Store(s2, START_AT, 8, iv.startSeq);
    LoadStored(s3, BITRATE_AT, 8, bitrate);
    LoadElsewhere(s, BYTES_AT, 8, iv.bytes, TIME_AT, 8);
    LoadElsewhere(s1, DATAGRAMS_AT, 8, iv.datagrams, TIME_AT, 8);
    LoadElsewhere(s2, START_AT, 8, iv.startSeq, TIME_AT, 8);
    LoadElsewhere(s3, BITRATE_AT, 8, bitrate, TIME_AT, 8);
  }

  lemma HeaderKeepsIdentifier(s: seq<Byte>, seqno: nat, time: nat, f: Byte)
    requires |s| >= BODY
    ensures NumAt(WriteHeader(s, seqno, time, f), IDENTIFIER_AT, 8) == NumAt(s, IDENTIFIER_AT, 8)
  {
    var s1 := Store(s, SEQ_AT, 8, seqno);
    var s2 := Store(s1, TIME_AT, 8, time);
    LoadElsewhere(s, SEQ_AT, 8, seqno, IDENTIFIER_AT, 8);
    LoadElsewhere(s1, TIME_AT, 8, time, IDENTIFIER_AT, 8);
    assert s2[FLAGS_AT := f][8..16] == s2[8..16];
  }

  lemma IntervalKeepsIdentifier(s: seq<Byte>, iv: Interval, bitrate: nat)
    requires |s| >= BODY
    requires iv.bytes >= 0 && iv.datagrams >= 0 && iv.startSeq >= 0
    ensures NumAt(WriteInterval(s, iv, bitrate), IDENTIFIER_AT, 8) == NumAt(s, IDENTIFIER_AT, 8)
  {
    var s1 := Store(s, BYTES_AT, 8, iv.bytes);
    var s2 := Store(s1, DATAGRAMS_AT, 8, iv.datagrams);
    var s3 := Store(s2, START_AT, 8, iv.startSeq);
    LoadElsewhere(s, BYTES_AT, 8, iv.bytes, IDENTIFIER_AT, 8);
    LoadElsewhere(s1, DATAGRAMS_AT, 8, iv.datagrams, IDENTIFIER_AT, 8);
    LoadElsewhere(s2, START_AT, 8, iv.startSeq, IDENTIFIER_AT, 8);
    LoadElsewhere(s3, BITRATE_AT, 8, bitrate, IDENTIFIER_AT, 8);
  }

  /** Every block of a stream carries the same identifier, so the peer learns it from any of them. */
  lemma {:induction false} IdentifierStays(s: seq<Byte>, ws: seq<Write>)
    requires |s| >= BODY
    ensures NumAt(PerformAll(s, ws), IDENTIFIER_AT, 8) == NumAt(s, IDENTIFIER_AT, 8)
  {
    if ws != [] {
      IdentifierStays(s, ws[..|ws| - 1]);
      var t := PerformAll(s, ws[..|ws| - 1]);
      match ws[|ws| - 1]
      case HeaderWrite(seqno, time, flags) => HeaderKeepsIdentifier(t, seqno, time, flags);
      case IntervalWrite(startSeq, bytes, datagrams, bitrate) =>
        IntervalKeepsIdentifier(t, Interval(startSeq, bytes, datagrams), bitrate);
    }
  }

  /** Storing what is already there changes nothing. */
  lemma StoreBack(s: seq<Byte>, off: nat, n: nat)
    requires off + n <= |s|
    ensures Store(s, off, n, NumAt(s, off, n)) == s
  {
    LEInverse(s[off..off + n]);
  }

  /** `ValidateReceivedData` as the receiver runs it. */
  method ValidateReceivedData(data: array<Byte>, length: int) returns (ok: bool)
    requires data.Length >= 8 && length <= data.Length
    ensures ok == Validates(data[..], length)
    ensures ok <==>
              && FromLE(data[..8]) == 0xa1b2_c3d4_a5b6_c7d8
              && (length > 72 ==> data[72] == 0x77 && data[length - 1] == 0x77)
              && (length > 1572 ==> data[length - 1501] == 0x77)
  {
    assert data[..8] == data[..][0..8];
    var magic := LoadAt(data, 0, 8);
    if magic != MAGIC {
      return false;
    }
    if length <= BODY {
      return true;
    }
    if data[BODY] != FILL {
      return false;
    }
    if data[length - 1] != FILL {
      return false;
    }
    if length > LINK_MTU + BODY {
      if data[length - 1 - LINK_MTU] != FILL {
        return false;
      }
    }
    return true;
  }
}
