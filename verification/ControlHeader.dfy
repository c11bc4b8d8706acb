/**
 The header of a control message and who handles it (`iperf_control_data` in
 `example/iperf-bats/iperf_test_api.h`; the `HandleControlMessage` of
 `example/iperf-bats/iperf_test.cc` and `example/iperf-bats/iperf_file_transfer.cc`).
 */
module ControlHeader {
  import opened Bytes
  import opened ControlProtocol

  const CONTROL_HEADER: nat := 32

  /** The header fields a receiver looks at: magic, test, action and stream count. */
  ghost predicate Headed(s: seq<Byte>, testId: nat, action: int, numStreams: nat) {
    && |s| >= 32
    && FromLE(s[0..8]) == 0xa1b2_c3d4_a5b6_c7d8
    && FromLE(s[8..12]) == testId % 0x1_0000_0000
    && s[12] == action && s[13] == numStreams % 256
  }

  /** The first sixteen bytes; the four parameters follow. */
  function EncodeHeader(testId: nat, action: Byte, numStreams: nat): (s: seq<Byte>)
    ensures |s| == 16
  {
    MAGIC_BYTES + ToLE(testId, 4) + [action, numStreams % 256, 0, 0]
  }

  lemma HeaderReads(s: seq<Byte>, testId: nat, action: Byte, numStreams: nat)
    requires |s| >= 32 && s[..16] == EncodeHeader(testId, action, numStreams)
    ensures Headed(s, testId, action, numStreams)
  {
    HeaderParts(MAGIC_BYTES, ToLE(testId, 4), [action, numStreams % 256, 0, 0], s);
    MagicBytes();
    WordRoundTrip(testId);
  }

  lemma WordRoundTrip(v: nat)
    ensures FromLE(ToLE(v, 4)) == v % 0x1_0000_0000
  {
    Limits();
    LERoundTrip(v, 4);
  }

  lemma HeaderParts(a: seq<Byte>, b: seq<Byte>, c: seq<Byte>, s: seq<Byte>)
    requires |a| == 8 && |b| == 4 && |c| == 4 && |s| >= 16 && s[..16] == a + b + c
    ensures s[0..8] == a && s[8..12] == b && s[12] == c[0] && s[13] == c[1]
  {
    assert s[0..8] == s[..16][0..8];
    assert s[8..12] == s[..16][8..12];
    assert s[12] == s[..16][12] && s[13] == s[..16][13];
  }

  /** A zeroed message with its header filled in, as every `Send` begins. */
  method NewMessage(size: nat, testId: nat, action: Byte, numStreams: nat) returns (to: array<Byte>)
    requires size >= CONTROL_HEADER
    ensures fresh(to) && to.Length == size
    ensures Headed(to[..], testId, action, numStreams) && forall i :: 16 <= i < size ==> to[i] == 0
  {
    to := new Byte[size](_ => 0);
    StoreIdentity(to, testId);
    to[12] := action;
    to[13] := numStreams % 256;
    ghost var twelve := MAGIC_BYTES + ToLE(testId, 4);
    assert to[..12] == twelve;
    assert to[..16] == twelve + [action, numStreams % 256, 0, 0];
    assert to[..][..16] == to[..16];
    HeaderReads(to[..], testId, action, numStreams);
  }

  /** Magic number and test, the first twelve bytes. */
  method StoreIdentity(to: array<Byte>, testId: nat)
    requires to.Length >= 12
    modifies to
    ensures to[..12] == MAGIC_BYTES + ToLE(testId, 4)
    ensures forall i :: 12 <= i < to.Length ==> to[i] == old(to[i])
  {
    MagicBytes();
    ghost var was := to[..];
    StoreAt(to, 0, 8, MAGIC);
    StoreAt(to, 8, 4, testId);
    ghost var twelve := MAGIC_BYTES + ToLE(testId, 4);
    SpliceAppend(was, 0, MAGIC_BYTES, ToLE(testId, 4));
    SplicedPart(was, 0, twelve);
    assert to[..12] == to[..][0..12];
    assert to[..][12..] == was[12..];
    assert forall i :: 12 <= i < to.Length ==> to[i] == to[..][12..][i - 12] == was[12..][i - 12];
  }

  // --------------------------------------------------------------------- dispatching

  datatype Handler = ToParameters | ToSummary | ToAck | ToReady | ToRequest | ToAccepted | ToDenied | ToNobody

  /** `IperfTest::HandleControlMessage`; `ok` is its assertion on the test. */
  method HandleControlMessage(data: array<Byte>, testId: nat) returns (h: Handler, ok: bool)
    requires data.Length >= 32
    ensures ok <==> FromLE(data[8..12]) == testId
    ensures (h == ToParameters <==> data[12] == 2) && (h == ToSummary <==> data[12] == 3)
    ensures (h == ToAck <==> data[12] == 4) && (h == ToReady <==> data[12] == 5)
    ensures h == ToNobody <==> data[12] !in {2, 3, 4, 5}
  {
    assert data[8..12] == data[..][8..12];
    var id := LoadAt(data, 8, 4);
    ok := id == testId;
    if data[12] == 4 {
      h := ToAck;
    } else if data[12] == 3 {
      h := ToSummary;
    } else if data[12] == 2 {
      h := ToParameters;
    } else if data[12] == 5 {
      h := ToReady;
    } else {
      h := ToNobody;
    }
  }

  /** `IperfFileTransfer::HandleControlMessage`, which also asserts the action. */
  method HandleFileMessage(data: array<Byte>, testId: nat) returns (h: Handler, ok: bool)
    requires data.Length >= 32
    ensures ok <==> FromLE(data[8..12]) == testId && (data[12] == 1 || data[12] == 4)
    ensures h == ToRequest <==> data[12] == 1
    ensures h == ToAccepted <==> data[12] == 4 && FromLE(data[16..20]) == 0
    ensures h == ToDenied <==> data[12] == 4 && FromLE(data[16..20]) != 0
  {
    assert data[8..12] == data[..][8..12] && data[16..20] == data[..][16..20];
    var id := LoadAt(data, 8, 4);
    ok := id == testId && (data[12] == 1 || data[12] == 4);
    h := ToNobody;
    if data[12] == 4 {
      var param0 := LoadAt(data, 16, 4);
      h := if param0 == 0 then ToAccepted else ToDenied;
    } else if data[12] == 1 {
      h := ToRequest;
    }
  }

  /** The action code of a message. What an acknowledgement is for has no place in it. */
  function ActionCode(m: Msg): Byte {
    match m
    case Params => 2
    case Summary => 3
    case Ack(_) => 4
    case Ready => 5
  }

  /** Whom a message is meant for. */
  ghost function MeantFor(m: Msg): Handler {
    match m
    case Params => ToParameters
    case Summary => ToSummary
    case Ack(_) => ToAck
    case Ready => ToReady
  }

  /**
   Every message of the protocol reaches the handler it is meant for, with its own test:
   what is built with its header and dispatched on those bytes.
   */
  method Delivered(m: Msg, size: nat, testId: nat, numStreams: nat) returns (to: array<Byte>, h: Handler, ok: bool)
    requires size >= 32 && testId < 0x1_0000_0000
    ensures ok && h == MeantFor(m)
    ensures to.Length == size && Headed(to[..], testId, ActionCode(m), numStreams)
  {
    to := NewMessage(size, testId, ActionCode(m), numStreams);
    assert to[8..12] == to[..][8..12];
    h, ok := HandleControlMessage(to, testId);
  }

  /** `SendResponseOk` and `SendResponseDenied`: the answer to a file request. */
  method BuildResponse(testId: nat, denied: bool) returns (to: array<Byte>)
    ensures to.Length == 300 && Headed(to[..], testId, 4, 0)
    ensures FromLE(to[16..20]) == if denied then 1 else 0
  {
    to := NewMessage(300, testId, 4, 0);
    ghost var head := to[..];
    var param0 := if denied then 1 else 0;
    StoreAt(to, 16, 4, param0);
    Limits();
    LoadStored(head, 16, 4, param0);
    assert to[16..20] == to[..][16..20];
    assert to[..][0..8] == head[0..8] && to[..][8..12] == head[8..12];
  }

  /** The two acknowledgements are the same bytes: only the state they are read in tells them apart. */
  lemma AcksAreAlike(testId: nat, numStreams: nat)
    ensures EncodeHeader(testId, ActionCode(Ack(ForParams)), numStreams)
            == EncodeHeader(testId, ActionCode(Ack(ForSummary)), numStreams)
    ensures forall m: Msg :: ActionCode(m) == 4 <==> m.Ack?
  {
  }
}
