/**
 The bodies of the control messages: test configuration, file request and test
 summary (`example/iperf-bats/iperf_common.h`, `example/iperf-bats/iperf_test.cc`,
 `example/iperf-bats/iperf_file_transfer.cc`). Interval, time and bitrate are real
 numbers; how a `float` rounds them is not modelled.
 */
module ControlMessages {
  import opened Bytes
  import opened Options
  import opened ControlHeader

  const CONFIG_SIZE: nat := 12
  const REQUEST_SIZE: nat := 300
  const SUMMARY_SIZE: nat := 1100
  const REPORT_SIZE: nat := 32

  /** A number kept in hundredths, rounded down. */
  function Hundredths(x: real): int {
    (x * 100.0).Floor
  }

  function FromHundredths(n: int): real {
    n as real / 100.0
  }

  /** Rounding to hundredths loses less than one of them, and nothing the second time. */
  lemma HundredthsRound(x: real)
    ensures FromHundredths(Hundredths(x)) <= x < FromHundredths(Hundredths(x)) + 0.01
    ensures Hundredths(FromHundredths(Hundredths(x))) == Hundredths(x)
    ensures FromHundredths(Hundredths(x)) == x <==> Hundredths(x) as real == x * 100.0
  {
  }

  // --------------------------------------------------------------- configuration

  datatype Config = Config(interval: real, time: real, protocol: int, reverse: bool, port: int)

  /** What the casts of `Serialize` are defined for. */
  ghost predicate Castable(c: Config) {
    && 0 <= Hundredths(c.interval) < U32 && 0 <= Hundredths(c.time) < U32
    && c.protocol >= 0 && c.port >= 0
  }

  function EncodeConfig(c: Config): (s: seq<Byte>)
    requires Hundredths(c.interval) >= 0 && Hundredths(c.time) >= 0 && c.protocol >= 0 && c.port >= 0
    ensures |s| == CONFIG_SIZE
  {
    ToLE(Hundredths(c.interval), 4) + ToLE(Hundredths(c.time), 4)
    + [c.protocol % 256, if c.reverse then 1 else 0] + ToLE(c.port, 2)
  }

  function DecodeConfig(s: seq<Byte>): Config
    requires |s| >= CONFIG_SIZE
  {
    Config(FromHundredths(NumAt(s, 0, 4)), FromHundredths(NumAt(s, 4, 4)), s[8], s[9] != 0, NumAt(s, 10, 2))
  }

  lemma ConfigLayout(c: Config)
    requires Castable(c)
    ensures var s := EncodeConfig(c);
            && s[0..4] == ToLE(Hundredths(c.interval), 4) && s[4..8] == ToLE(Hundredths(c.time), 4)
            && s[8] == c.protocol % 256 && s[9] == (if c.reverse then 1 else 0) && s[10..12] == ToLE(c.port, 2)
  {
  }

  /** Where the fields of a configuration are read, whatever the bytes. */
  lemma ConfigReads(s: seq<Byte>)
    requires |s| >= 12
    ensures var c := DecodeConfig(s);
            && c.interval * 100.0 == FromLE(s[0..4]) as real && c.time * 100.0 == FromLE(s[4..8]) as real
            && c.protocol == s[8] && (c.reverse <==> s[9] != 0) && c.port == FromLE(s[10..12])
  {
  }

  /** What arrives: times rounded down to hundredths, the rest cut to its field. */
  lemma ConfigArrives(c: Config)
    requires Castable(c)
    ensures DecodeConfig(EncodeConfig(c)) ==
            Config(FromHundredths(Hundredths(c.interval)), FromHundredths(Hundredths(c.time)),
                   c.protocol % 256, c.reverse, c.port % U16)
  {
    var s := EncodeConfig(c);
    ConfigLayout(c);
    Limits();
    assert NumAt(s, 0, 4) == Hundredths(c.interval) by { LERoundTrip(Hundredths(c.interval), 4); }
    assert NumAt(s, 4, 4) == Hundredths(c.time) by { LERoundTrip(Hundredths(c.time), 4); }
    assert NumAt(s, 10, 2) == c.port % U16 by { LERoundTrip(c.port, 2); }
  }

  /** A configuration survives unchanged exactly when it fits its fields. */
  lemma ConfigRoundTrip(c: Config)
    requires Castable(c)
    ensures DecodeConfig(EncodeConfig(c)) == c <==>
            && Hundredths(c.interval) as real == c.interval * 100.0
            && Hundredths(c.time) as real == c.time * 100.0
            && c.protocol < 256 && c.port < U16
  {
    ConfigArrives(c);
    HundredthsRound(c.interval);
    HundredthsRound(c.time);
  }

  /** Sending on what was received changes nothing more. */
  lemma ConfigReencodes(c: Config)
    requires Castable(c)
    ensures Castable(DecodeConfig(EncodeConfig(c)))
    ensures EncodeConfig(DecodeConfig(EncodeConfig(c))) == EncodeConfig(c)
  {
    ConfigArrives(c);
    HundredthsRound(c.interval);
    HundredthsRound(c.time);
    var d := DecodeConfig(EncodeConfig(c));
    assert d.protocol % 256 == c.protocol % 256;
    SameLow(c.port, d.port);
  }

  /** Two bytes see a number only modulo 65536. */
  lemma SameLow(v: nat, w: nat)
    requires w == v % U16
    ensures ToLE(w, 2) == ToLE(v, 2)
  {
    Limits();
    LERoundTrip(v, 2);
    var s := ToLE(v, 2);
    assert FromLE(s) == w;
    LEInverse(s);
  }

  /** `Serialize`: stores through a moving pointer, which is returned. */
  method Serialize(c: Config, to: array<Byte>, at: nat) returns (next: nat)
    requires Castable(c) && at + CONFIG_SIZE <= to.Length
    modifies to
    ensures next == at + CONFIG_SIZE
    ensures to[..] == Splice(old(to[..]), at, EncodeConfig(c))
  {
    ghost var was := to[..];
    var interval, time := Hundredths(c.interval), Hundredths(c.time);
    next := at;
    StoreAt(to, next, 4, interval);
    next := next + 4;
    StoreAt(to, next, 4, time);
    next := next + 4;
    ghost var times := ToLE(interval, 4) + ToLE(time, 4);
    SpliceAppend(was, at, ToLE(interval, 4), ToLE(time, 4));
    StoreFlags(to, next, c.protocol, c.reverse);
    next := next + 2;
    ghost var flags := [c.protocol % 256, if c.reverse then 1 else 0];
    SpliceAppend(was, at, times, flags);
    StoreAt(to, next, 2, c.port);
    next := next + 2;
    SpliceAppend(was, at, times + flags, ToLE(c.port, 2));
  }

  /** The two single-byte fields. */
  method StoreFlags(to: array<Byte>, at: nat, protocol: nat, reverse: bool)
    requires at + 2 <= to.Length
    modifies to
    ensures to[..] == Splice(old(to[..]), at, [protocol % 256, if reverse then 1 else 0])
  {
    to[at] := protocol % 256;
    to[at + 1] := if reverse then 1 else 0;
  }

  // ---------------------------------------------------------------- file request

  /** What a file request carries: the announced file count, the total size, the configuration. */
  datatype FileRequest = FileRequest(testId: nat, numStreams: nat, fileCount: nat, totalBytes: nat, config: Config)

  ghost predicate RequestOk(r: FileRequest) {
    && Castable(r.config) && r.fileCount < U32 && r.totalBytes < 0x8000_0000_0000_0000 && r.testId < U32
  }

  /** The 32-byte control header: identity first, then the four parameters. */
  function RequestIdentity(r: FileRequest): (s: seq<Byte>)
    ensures |s| == 16
  {
    EncodeHeader(r.testId, 1, r.numStreams)
  }

  function RequestParameters(r: FileRequest): (s: seq<Byte>)
    ensures |s| == 16
  {
    ToLE(r.fileCount, 4) + ToLE(r.totalBytes / U32, 4) + ToLE(r.totalBytes % U32, 4) + ToLE(0, 4)
  }

  function EncodeRequest(r: FileRequest): (s: seq<Byte>)
    requires Hundredths(r.config.interval) >= 0 && Hundredths(r.config.time) >= 0
    requires r.config.protocol >= 0 && r.config.port >= 0
    ensures |s| == 300
  {
    var head := RequestIdentity(r) + RequestParameters(r);
    var body := EncodeConfig(r.config);
    var rest := seq(REQUEST_SIZE - CONTROL_HEADER - CONFIG_SIZE, _ => 0);
    head + body + rest
  }

  function FileCountOf(s: seq<Byte>): nat
    requires |s| >= CONTROL_HEADER
  {
    NumAt(s, 16, 4)
  }

  /** The two halves put together again. */
  function TotalBytesOf(s: seq<Byte>): nat
    requires |s| >= CONTROL_HEADER
  {
    NumAt(s, 20, 4) * U32 + NumAt(s, 24, 4)
  }

  function ConfigOf(s: seq<Byte>): Config
    requires |s| >= CONTROL_HEADER + CONFIG_SIZE
  {
    DecodeConfig(s[CONTROL_HEADER..CONTROL_HEADER + CONFIG_SIZE])
  }

  lemma ParametersLayout(r: FileRequest)
    ensures var p := RequestParameters(r);
            && p[0..4] == ToLE(r.fileCount, 4)
            && p[4..8] == ToLE(r.totalBytes / U32, 4)
            && p[8..12] == ToLE(r.totalBytes % U32, 4)
            && p[12..16] == ToLE(0, 4)
  {
  }

  /** Where the second and the third of four pieces stand. */
  lemma Pieces(a: seq<Byte>, b: seq<Byte>, c: seq<Byte>, d: seq<Byte>)
    ensures var s := a + b + c + d;
            s[|a|..|a| + |b|] == b && s[|a| + |b|..|a| + |b| + |c|] == c
  {
  }

  lemma RequestLayout(r: FileRequest)
    requires RequestOk(r)
    ensures var s := EncodeRequest(r);
            && s[16..32] == RequestParameters(r)
            && s[CONTROL_HEADER..CONTROL_HEADER + CONFIG_SIZE] == EncodeConfig(r.config)
  {
    var rest := seq(REQUEST_SIZE - CONTROL_HEADER - CONFIG_SIZE, _ => 0);
    Pieces(RequestIdentity(r), RequestParameters(r), EncodeConfig(r.config), rest);
  }

  /** A piece of a piece. */
  lemma Within(s: seq<Byte>, at: nat, n: nat, t: seq<Byte>, i: nat, j: nat)
    requires at + n <= |s| && s[at..at + n] == t && i <= j <= n
    ensures s[at + i..at + j] == t[i..j]
  {
    assert s[at..at + j] == t[..j] by {
      assert s[at..at + j] == s[at..at + n][..j];
    }
    assert s[at + i..at + j] == s[at..at + j][i..];
  }

  lemma WordReads(s: seq<Byte>, p: seq<Byte>, i: nat, v: nat)
    requires |s| >= 32 && s[16..32] == p && i <= 12 && v < U32 && p[i..i + 4] == ToLE(v, 4)
    ensures NumAt(s, 16 + i, 4) == v
  {
    Within(s, 16, 16, p, i, i + 4);
    Limits();
    LERoundTrip(v, 4);
  }

  /** The receiver of a request learns the file count and the full 64-bit total. */
  lemma RequestTotals(r: FileRequest)
    requires RequestOk(r)
    ensures FileCountOf(EncodeRequest(r)) == r.fileCount
    ensures TotalBytesOf(EncodeRequest(r)) == r.totalBytes
  {
    RequestLayout(r);
    ParametersLayout(r);
    var hi, lo := r.totalBytes / U32, r.totalBytes % U32;
    assert hi < U32 && lo < U32 && hi * U32 + lo == r.totalBytes;
    TotalsRead(EncodeRequest(r), RequestParameters(r), r.fileCount, hi, lo);
  }

  lemma TotalsRead(s: seq<Byte>, p: seq<Byte>, count: nat, hi: nat, lo: nat)
    requires |s| >= 32 && s[16..32] == p && count < U32 && hi < U32 && lo < U32
    requires p[0..4] == ToLE(count, 4) && p[4..8] == ToLE(hi, 4) && p[8..12] == ToLE(lo, 4)
    ensures FileCountOf(s) == count && TotalBytesOf(s) == hi * U32 + lo
  {
    assert NumAt(s, 16, 4) == count by { WordReads(s, p, 0, count); }
    assert NumAt(s, 20, 4) == hi by { WordReads(s, p, 4, hi); }
    assert NumAt(s, 24, 4) == lo by { WordReads(s, p, 8, lo); }
  }

  /** The fourth parameter and everything behind the configuration is zero. */
  lemma RequestRest(r: FileRequest)
    requires RequestOk(r)
    ensures var s := EncodeRequest(r);
            FromLE(s[28..32]) == 0 && forall i :: 44 <= i < |s| ==> s[i] == 0
  {
    RequestLayout(r);
    ParametersLayout(r);
    WordReads(EncodeRequest(r), RequestParameters(r), 12, 0);
  }

  lemma RequestHeader(r: FileRequest)
    requires RequestOk(r)
    ensures Headed(EncodeRequest(r), r.testId, 1, r.numStreams)
  {
    var s, head := EncodeRequest(r), RequestIdentity(r) + RequestParameters(r);
    assert s[..32] == head && head[..16] == RequestIdentity(r);
    assert s[..16] == s[..32][..16];
    HeaderReads(s, r.testId, 1, r.numStreams);
  }

  /** ... and the configuration, which is a fixed point of sending it again. */
  lemma RequestRoundTrip(r: FileRequest)
    requires RequestOk(r)
    ensures Headed(EncodeRequest(r), r.testId, 1, r.numStreams)
    ensures var s := EncodeRequest(r);
            var c := ConfigOf(s);
            var d := FileRequest(r.testId, r.numStreams, FileCountOf(s), TotalBytesOf(s), c);
            && d.fileCount == r.fileCount && d.totalBytes == r.totalBytes
            && c == Config(FromHundredths(Hundredths(r.config.interval)), FromHundredths(Hundredths(r.config.time)),
                           r.config.protocol % 256, r.config.reverse, r.config.port % U16)
            && RequestOk(d) && EncodeRequest(d) == s
  {
    RequestTotals(r);
    RequestLayout(r);
    RequestHeader(r);
    ConfigArrives(r.config);
    ConfigReencodes(r.config);
    var s := EncodeRequest(r);
    assert ConfigOf(s) == DecodeConfig(EncodeConfig(r.config));
    var d := FileRequest(r.testId, r.numStreams, r.fileCount, r.totalBytes, ConfigOf(s));
    assert EncodeConfig(d.config) == EncodeConfig(r.config);
    assert RequestIdentity(d) == RequestIdentity(r) && RequestParameters(d) == RequestParameters(r);
  }

  // -------------------------------------------------------------------- summary

  datatype Report = Report(bytes: nat, datagrams: nat, bitrate: real)

  datatype Entry = Entry(id: nat, report: Report)

  predicate EntryOk(e: Entry) {
    && e.id < U64 && e.report.bytes < U64 && e.report.datagrams < U64
    && 0 <= Hundredths(e.report.bitrate) < U64
  }

  predicate AllOk(es: seq<Entry>) {
    forall i :: 0 <= i < |es| ==> EntryOk(es[i])
  }

  /** The bytes of one stream's report. */
  function EncodeEntry(e: Entry): (s: seq<Byte>)
    requires Hundredths(e.report.bitrate) >= 0
    ensures |s| == REPORT_SIZE
  {
    ToLE(e.id, 8) + ToLE(e.report.bytes, 8) + ToLE(e.report.datagrams, 8) + ToLE(Hundredths(e.report.bitrate), 8)
  }

  /** What a report reads as on the other side. */
  function Received(r: Report): Report {
    r.(bitrate := FromHundredths(Hundredths(r.bitrate)))
  }

  /** A load that gives zero past the end of the message. */
  function Load(s: seq<Byte>, at: nat): nat {
    if at + 8 <= |s| then NumAt(s, at, 8) else 0
  }

  /** `DeserializeReport` at a position. */
  function ReportAt(s: seq<Byte>, at: nat): Report {
    Report(Load(s, at), Load(s, at + 8), FromHundredths(Load(s, at + 16)))
  }

  function EncodeEntries(es: seq<Entry>): (s: seq<Byte>)
    requires AllOk(es)
    ensures |s| == REPORT_SIZE * |es|
  {
    if es == [] then [] else EncodeEntries(es[..|es| - 1]) + EncodeEntry(es[|es| - 1])
  }

  /** All reports fit the message exactly up to 33 streams. */
  lemma SummaryFits(es: seq<Entry>)
    requires AllOk(es)
    ensures CONTROL_HEADER + |EncodeEntries(es)| <= SUMMARY_SIZE <==> |es| <= 33
  {
  }

  lemma EntryLayout(e: Entry)
    requires EntryOk(e)
    ensures var t := EncodeEntry(e);
            && t[0..8] == ToLE(e.id, 8) && t[8..16] == ToLE(e.report.bytes, 8)
            && t[16..24] == ToLE(e.report.datagrams, 8) && t[24..32] == ToLE(Hundredths(e.report.bitrate), 8)
  {
  }

  lemma FieldReads(s: seq<Byte>, at: nat, v: nat)
    requires v < U64 && at + 8 <= |s| && s[at..at + 8] == ToLE(v, 8)
    ensures Load(s, at) == v
  {
    Limits();
    LERoundTrip(v, 8);
  }

  lemma EntryReads(e: Entry, s: seq<Byte>, at: nat)
    requires EntryOk(e) && at + REPORT_SIZE <= |s| && s[at..at + REPORT_SIZE] == EncodeEntry(e)
    ensures Load(s, at) == e.id && ReportAt(s, at + 8) == Received(e.report)
  {
    var t := EncodeEntry(e);
    EntryLayout(e);
    Within(s, at, REPORT_SIZE, t, 0, 8);
    Within(s, at, REPORT_SIZE, t, 8, 16);
    Within(s, at, REPORT_SIZE, t, 16, 24);
    Within(s, at, REPORT_SIZE, t, 24, 32);
    FieldReads(s, at, e.id);
    FieldReads(s, at + 8, e.report.bytes);
    FieldReads(s, at + 16, e.report.datagrams);
    FieldReads(s, at + 24, Hundredths(e.report.bitrate));
  }

  lemma {:induction false} EntryAt(es: seq<Entry>, i: nat)
    requires AllOk(es)
    requires i < |es|
    ensures EncodeEntries(es)[REPORT_SIZE * i..REPORT_SIZE * (i + 1)] == EncodeEntry(es[i])
  {
    var n := |es| - 1;
    var before := EncodeEntries(es[..n]);
    assert EncodeEntries(es) == before + EncodeEntry(es[n]);
    if i < n {
      EntryAt(es[..n], i);
      var from, to := REPORT_SIZE * i, REPORT_SIZE * (i + 1);
      assert EncodeEntries(es)[from..to] == before[from..to];
    }
  }

  /** `SerializeReport`. */
  method SerializeReport(e: Entry, to: array<Byte>, at: nat) returns (next: nat)
    requires EntryOk(e) && at + REPORT_SIZE <= to.Length
    modifies to
    ensures next == at + REPORT_SIZE
    ensures to[..] == Splice(old(to[..]), at, EncodeEntry(e))
  {
    ghost var was := to[..];
    next := at;
    StoreAt(to, next, 8, e.id);
    next := next + 8;
    StoreAt(to, next, 8, e.report.bytes);
    next := next + 8;
    ghost var two := ToLE(e.id, 8) + ToLE(e.report.bytes, 8);
    SpliceAppend(was, at, ToLE(e.id, 8), ToLE(e.report.bytes, 8));
    StoreAt(to, next, 8, e.report.datagrams);
    next := next + 8;
    SpliceAppend(was, at, two, ToLE(e.report.datagrams, 8));
    StoreAt(to, next, 8, Hundredths(e.report.bitrate));
    next := next + 8;
    SpliceAppend(was, at, two + ToLE(e.report.datagrams, 8), ToLE(Hundredths(e.report.bitrate), 8));
  }

  lemma EncodedNext(es: seq<Entry>, i: nat)
    requires AllOk(es) && i < |es|
    ensures EncodeEntries(es[..i + 1]) == EncodeEntries(es[..i]) + EncodeEntry(es[i])
  {
    assert es[..i + 1][..i] == es[..i] && es[..i + 1][i] == es[i];
  }

  /** The loop over the streams, with its moving pointer. */
  method WriteReports(es: seq<Entry>, to: array<Byte>)
    requires AllOk(es) && CONTROL_HEADER + REPORT_SIZE * |es| <= to.Length
    modifies to
    ensures to[..] == Splice(old(to[..]), CONTROL_HEADER, EncodeEntries(es))
  {
    ghost var head := to[..];
    var ptr := CONTROL_HEADER;
    var i := 0;
    while i < |es|
      invariant 0 <= i <= |es| && ptr == CONTROL_HEADER + REPORT_SIZE * i
      invariant AllOk(es[..i])
      invariant to[..] == Splice(head, CONTROL_HEADER, EncodeEntries(es[..i]))
    {
      ghost var done := EncodeEntries(es[..i]);
      EncodedNext(es, i);
      ptr := SerializeReport(es[i], to, ptr);
      SpliceAppend(head, CONTROL_HEADER, done, EncodeEntry(es[i]));
      i := i + 1;
    }
    assert es[..i] == es;
  }

  /**
   The message `SendTestSummary` builds: its header names the test, the summary action and
   the number of streams, and one report for each stream follows.
   */
  method BuildSummary(testId: nat, es: seq<Entry>) returns (to: array<Byte>)
    requires AllOk(es) && |es| <= 33
    ensures to.Length == 1100 && Headed(to[..], testId, 3, |es|) && to[13] == |es|
    ensures Carries(to[..], es)
  {
    to := NewMessage(SUMMARY_SIZE, testId, 3, |es|);
    ghost var head := to[..];
    WriteReports(es, to);
    SplicedPart(head, CONTROL_HEADER, EncodeEntries(es));
    SameHeader(head, to[..], testId, 3, |es|);
  }

  /** What is written behind the header leaves it as it is. */
  lemma SameHeader(s: seq<Byte>, t: seq<Byte>, testId: nat, action: int, numStreams: nat)
    requires Headed(s, testId, action, numStreams) && |t| >= 32 && t[..32] == s[..32]
    ensures Headed(t, testId, action, numStreams)
  {
    assert t[0..8] == t[..32][0..8] == s[0..8] && t[8..12] == t[..32][8..12] == s[8..12];
    assert t[12] == t[..32][12] && t[13] == t[..32][13];
  }

  /** The message `SendTestParameters` builds: header and configuration. */
  method BuildParameters(testId: nat, numStreams: nat, c: Config) returns (to: array<Byte>)
    requires Castable(c)
    ensures to.Length == 300 && Headed(to[..], testId, 2, numStreams)
    ensures to[32..44] == EncodeConfig(c)
  {
    to := NewMessage(300, testId, 2, numStreams);
    ghost var head := to[..];
    var next := Serialize(c, to, CONTROL_HEADER);
    SplicedPart(head, CONTROL_HEADER, EncodeConfig(c));
    assert to[32..44] == to[..][32..44];
    SameHeader(head, to[..], testId, 2, numStreams);
  }

  // ------------------------------------------------------------- reading a summary

  /** The streams' reports and the read position. */
  datatype Parsed = Parsed(got: seq<Option<Report>>, at: nat)

  /** The inner loop: every stream with this identifier reads a report and moves the position on. */
  ghost function MatchStreams(s: seq<Byte>, id: nat, ids: seq<nat>, j: nat, p: Parsed): (q: Parsed)
    requires j <= |ids| == |p.got|
    ensures |q.got| == |ids|
    decreases |ids| - j
  {
    if j == |ids| then p
    else if ids[j] == id then
      MatchStreams(s, id, ids, j + 1, Parsed(p.got[j := Some(ReportAt(s, p.at))], p.at + 24))
    else MatchStreams(s, id, ids, j + 1, p)
  }

  /** One round of the outer loop: an identifier is read and its streams are looked up. */
  ghost function ReadEntry(s: seq<Byte>, ids: seq<nat>, p: Parsed): (q: Parsed)
    requires |ids| == |p.got|
    ensures |q.got| == |ids|
  {
    MatchStreams(s, Load(s, p.at), ids, 0, p.(at := p.at + 8))
  }

  /** What the streams have after `n` entries. */
  ghost function ParseEntries(s: seq<Byte>, ids: seq<nat>, n: nat): (q: Parsed)
    ensures |q.got| == |ids|
  {
    if n == 0 then Parsed(seq(|ids|, _ => None), CONTROL_HEADER)
    else ReadEntry(s, ids, ParseEntries(s, ids, n - 1))
  }

  /** The two loops of `HandleSummaryMessage` over the receiver's streams. */
  method HandleSummary(s: seq<Byte>, num: nat, ids: seq<nat>) returns (got: seq<Option<Report>>)
    ensures |got| == |ids|
    ensures got == ParseEntries(s, ids, num).got
  {
    got := seq(|ids|, _ => None);
    var at := CONTROL_HEADER;
    var i := 0;
    while i < num
      invariant 0 <= i <= num && |got| == |ids|
      invariant Parsed(got, at) == ParseEntries(s, ids, i)
    {
      var id := Load(s, at);
      at := at + 8;
      ghost var here := Parsed(got, at);
      var j := 0;
      while j < |ids|
        invariant 0 <= j <= |ids| && |got| == |ids|
        invariant MatchStreams(s, id, ids, j, Parsed(got, at)) == MatchStreams(s, id, ids, 0, here)
      {
        if ids[j] == id {
          got := got[j := Some(ReportAt(s, at))];
          at := at + 24;
        }
        j := j + 1;
      }
      i := i + 1;
    }
  }

  // ------------------------------------------------------- when the positions are right

  /** How many streams from the `j`-th on hold an identifier. */
  ghost function HoldersFrom(ids: seq<nat>, id: nat, j: nat): nat
    requires j <= |ids|
    decreases |ids| - j
  {
    if j == |ids| then 0 else (if ids[j] == id then 1 else 0) + HoldersFrom(ids, id, j + 1)
  }

  ghost function Holders(ids: seq<nat>, id: nat): nat {
    HoldersFrom(ids, id, 0)
  }

  /** The position moves on by one report for each stream that holds the identifier. */
  lemma {:induction false} MatchMoves(s: seq<Byte>, id: nat, ids: seq<nat>, j: nat, p: Parsed)
    requires j <= |ids| == |p.got|
    ensures MatchStreams(s, id, ids, j, p).at == p.at + 24 * HoldersFrom(ids, id, j)
    decreases |ids| - j
  {
    if j < |ids| {
      if ids[j] == id {
        MatchMoves(s, id, ids, j + 1, Parsed(p.got[j := Some(ReportAt(s, p.at))], p.at + 24));
      } else {
        MatchMoves(s, id, ids, j + 1, p);
      }
    }
  }

  /** The bytes of a message behind its header are these reports. */
  ghost predicate Carries(s: seq<Byte>, es: seq<Entry>) {
    && AllOk(es) && |s| >= CONTROL_HEADER + REPORT_SIZE * |es|
    && s[CONTROL_HEADER..CONTROL_HEADER + REPORT_SIZE * |es|] == EncodeEntries(es)
  }

  /** Reading starts each of the first `n` entries, and ends them, where they lie. */
  ghost predicate Aligned(s: seq<Byte>, ids: seq<nat>, n: nat) {
    forall k: nat :: k <= n ==> ParseEntries(s, ids, k).at == CONTROL_HEADER + REPORT_SIZE * k
  }

  ghost predicate HeldOnce(es: seq<Entry>, ids: seq<nat>, n: nat)
    requires n <= |es|
  {
    forall i: nat :: i < n ==> Holders(ids, es[i].id) == 1
  }

  /** The position of the n-th report in the message. */
  lemma EntryFound(s: seq<Byte>, es: seq<Entry>, n: nat)
    requires Carries(s, es) && n < |es|
    ensures var at := CONTROL_HEADER + REPORT_SIZE * n;
            Load(s, at) == es[n].id && ReportAt(s, at + 8) == Received(es[n].report)
  {
    EntryAt(es, n);
    Within(s, CONTROL_HEADER, REPORT_SIZE * |es|, EncodeEntries(es), REPORT_SIZE * n, REPORT_SIZE * (n + 1));
    EntryReads(es[n], s, CONTROL_HEADER + REPORT_SIZE * n);
  }

  /** From the right position, reading an entry moves on by one report for each holder. */
  lemma EntryMoves(s: seq<Byte>, es: seq<Entry>, ids: seq<nat>, n: nat)
    requires Carries(s, es) && n < |es|
    requires ParseEntries(s, ids, n).at == CONTROL_HEADER + REPORT_SIZE * n
    ensures ParseEntries(s, ids, n + 1).at == CONTROL_HEADER + REPORT_SIZE * n + 8 + 24 * Holders(ids, es[n].id)
  {
    var q := ParseEntries(s, ids, n);
    EntryFound(s, es, n);
    MatchMoves(s, es[n].id, ids, 0, q.(at := q.at + 8));
  }

  /**
   The parse keeps to the boundaries of the reports if and only if every identifier in
   the message is held by exactly one of the receiver's streams: an identifier no stream
   holds leaves the position inside its report, one that two streams hold skips the next.
   */
  lemma {:induction false} AlignedIffHeldOnce(s: seq<Byte>, es: seq<Entry>, ids: seq<nat>, n: nat)
    requires Carries(s, es) && n <= |es|
    ensures Aligned(s, ids, n) <==> HeldOnce(es, ids, n)
  {
    if n > 0 {
      AlignedIffHeldOnce(s, es, ids, n - 1);
      if Aligned(s, ids, n - 1) {
        assert ParseEntries(s, ids, n - 1).at == CONTROL_HEADER + REPORT_SIZE * (n - 1);
        EntryMoves(s, es, ids, n - 1);
      }
      assert Aligned(s, ids, n) ==> Aligned(s, ids, n - 1);
      assert HeldOnce(es, ids, n) ==> HeldOnce(es, ids, n - 1);
    }
  }

  // ------------------------------------------------------------------ who gets a report

  lemma {:induction false} MatchNone(s: seq<Byte>, id: nat, ids: seq<nat>, j: nat, p: Parsed)
    requires j <= |ids| == |p.got| && HoldersFrom(ids, id, j) == 0
    ensures MatchStreams(s, id, ids, j, p) == p
    decreases |ids| - j
  {
    if j < |ids| {
      MatchNone(s, id, ids, j + 1, p);
    }
  }

  /** An identifier held once: its stream reads, the position moves by one report, nothing else changes. */
  lemma {:induction false} MatchOne(s: seq<Byte>, id: nat, ids: seq<nat>, j: nat, p: Parsed, m: nat)
    requires j <= m < |ids| == |p.got| && ids[m] == id && HoldersFrom(ids, id, j) == 1
    ensures MatchStreams(s, id, ids, j, p) == Parsed(p.got[m := Some(ReportAt(s, p.at))], p.at + 24)
    decreases m - j
  {
    if j == m {
      MatchNone(s, id, ids, m + 1, Parsed(p.got[m := Some(ReportAt(s, p.at))], p.at + 24));
    } else {
      NotBefore(ids, id, j, m);
      MatchOne(s, id, ids, j + 1, p, m);
    }
  }

  /** The holder found later is the only one. */
  lemma NotBefore(ids: seq<nat>, id: nat, j: nat, m: nat)
    requires j < m < |ids| && ids[m] == id && HoldersFrom(ids, id, j) == 1
    ensures ids[j] != id && HoldersFrom(ids, id, j + 1) == 1
  {
    SomeHolder(ids, id, j + 1, m);
  }

  lemma {:induction false} SomeHolder(ids: seq<nat>, id: nat, j: nat, m: nat)
    requires j <= m < |ids| && ids[m] == id
    ensures HoldersFrom(ids, id, j) >= 1
    decreases m - j
  {
    if j < m {
      SomeHolder(ids, id, j + 1, m);
    }
  }

  lemma {:induction false} HolderExists(ids: seq<nat>, id: nat, j: nat) returns (m: nat)
    requires j <= |ids| && HoldersFrom(ids, id, j) >= 1
    ensures j <= m < |ids| && ids[m] == id
    decreases |ids| - j
  {
    if ids[j] == id {
      m := j;
    } else {
      m := HolderExists(ids, id, j + 1);
    }
  }

  ghost predicate DistinctIds(es: seq<Entry>) {
    forall i: nat, k: nat :: i < k < |es| ==> es[i].id != es[k].id
  }

  /** The first `n` reports have reached the streams that hold their identifiers. */
  ghost predicate Delivered(es: seq<Entry>, ids: seq<nat>, got: seq<Option<Report>>, n: nat)
    requires n <= |es| && |got| == |ids|
  {
    forall i: nat, m: nat :: i < n && m < |ids| && ids[m] == es[i].id ==> got[m] == Some(Received(es[i].report))
  }

  lemma {:induction false} OnlyHolder(ids: seq<nat>, id: nat, a: nat, b: nat)
    requires a < |ids| && b < |ids| && ids[a] == id == ids[b] && Holders(ids, id) == 1
    ensures a == b
  {
    var p := Parsed(seq(|ids|, _ => None), 0);
    MatchOne([], id, ids, 0, p, a);
    MatchOne([], id, ids, 0, p, b);
    var some: Option<Report> := Some(ReportAt([], 0));
    assert p.got[a := some][b] == p.got[b := some][b];
  }

  /** Reports already delivered stay, and each further one reaches its stream. */
  lemma {:induction false} EntriesReachOwners(s: seq<Byte>, es: seq<Entry>, ids: seq<nat>, n: nat)
    requires Carries(s, es) && n <= |es| && HeldOnce(es, ids, n) && DistinctIds(es)
    ensures Delivered(es, ids, ParseEntries(s, ids, n).got, n)
  {
    if n > 0 {
      var k := n - 1;
      EntriesReachOwners(s, es, ids, k);
      AlignedIffHeldOnce(s, es, ids, k);
      assert ParseEntries(s, ids, k).at == CONTROL_HEADER + REPORT_SIZE * k;
      EntryReachesOwner(s, es, ids, k);
    }
  }

  lemma EntryReachesOwner(s: seq<Byte>, es: seq<Entry>, ids: seq<nat>, k: nat)
    requires Carries(s, es) && k < |es| && Holders(ids, es[k].id) == 1 && DistinctIds(es)
    requires ParseEntries(s, ids, k).at == CONTROL_HEADER + REPORT_SIZE * k
    requires Delivered(es, ids, ParseEntries(s, ids, k).got, k)
    ensures Delivered(es, ids, ParseEntries(s, ids, k + 1).got, k + 1)
  {
    var q := ParseEntries(s, ids, k);
    EntryFound(s, es, k);
    var m := HolderExists(ids, es[k].id, 0);
    MatchOne(s, es[k].id, ids, 0, q.(at := q.at + 8), m);
    var got := q.got[m := Some(Received(es[k].report))];
    assert ParseEntries(s, ids, k + 1).got == got;
    forall i: nat, l: nat | i < k + 1 && l < |ids| && ids[l] == es[i].id
      ensures got[l] == Some(Received(es[i].report))
    {
      if i == k {
        OnlyHolder(ids, es[k].id, l, m);
      } else {
        assert es[i].id != es[k].id;
      }
    }
  }

  /**
   When every identifier in the message is held by exactly one receiver stream, each
   stream ends up with its own sender's totals, exact but for the rounded bitrate.
   */
  lemma SummaryRoundTrip(s: seq<Byte>, es: seq<Entry>, ids: seq<nat>, i: nat, m: nat)
    requires Carries(s, es) && DistinctIds(es) && Aligned(s, ids, |es|)
    requires i < |es| && m < |ids| && ids[m] == es[i].id
    ensures var q := ParseEntries(s, ids, |es|);
            && q.got[m].Some?
            && var r := q.got[m].value;
               && r.bytes == es[i].report.bytes && r.datagrams == es[i].report.datagrams
               && r.bitrate <= es[i].report.bitrate < r.bitrate + 0.01
  {
    AlignedIffHeldOnce(s, es, ids, |es|);
    EntriesReachOwners(s, es, ids, |es|);
    HundredthsRound(es[i].report.bitrate);
  }

  /**
   Streams are numbered with a clock reading plus a counter, taken in order, so one
   sender's identifiers all differ ...
   */
  lemma IdentifiersDiffer(clock: seq<nat>, counter: seq<nat>, es: seq<Entry>)
    requires |clock| == |counter| == |es| && forall i :: 0 <= i < |es| ==> es[i].id == clock[i] + counter[i]
    requires forall a, b :: 0 <= a <= b < |clock| ==> clock[a] <= clock[b]
    requires forall a, b :: 0 <= a < b < |counter| ==> counter[a] < counter[b]
    ensures DistinctIds(es)
  {
    forall i: nat, k: nat | i < k < |es|
      ensures es[i].id != es[k].id
    {
      assert clock[i] <= clock[k] && counter[i] < counter[k];
    }
  }

  /** ... and a summary whose streams the receiver knows once each arrives with its sender's numbers. */
  lemma SenderSummaryArrives(s: seq<Byte>, clock: seq<nat>, counter: seq<nat>, es: seq<Entry>, ids: seq<nat>, i: nat)
    returns (m: nat)
    requires |clock| == |counter| == |es| && forall k :: 0 <= k < |es| ==> es[k].id == clock[k] + counter[k]
    requires forall a, b :: 0 <= a <= b < |clock| ==> clock[a] <= clock[b]
    requires forall a, b :: 0 <= a < b < |counter| ==> counter[a] < counter[b]
    requires Carries(s, es) && HeldOnce(es, ids, |es|) && i < |es|
    ensures m < |ids| && ids[m] == es[i].id
    ensures var got := ParseEntries(s, ids, |es|).got;
            && got[m].Some? && got[m].value.bytes == es[i].report.bytes
            && got[m].value.datagrams == es[i].report.datagrams
            && got[m].value.bitrate <= es[i].report.bitrate < got[m].value.bitrate + 0.01
  {
    IdentifiersDiffer(clock, counter, es);
    AlignedIffHeldOnce(s, es, ids, |es|);
    m := HolderExists(ids, es[i].id, 0);
    SummaryRoundTrip(s, es, ids, i, m);
  }

  /** A witness for the other case: behind an unknown identifier a known stream gets nothing. */
  lemma UnknownIdentifierLosesTheRest(s: seq<Byte>, a: Entry, b: Entry)
    requires a.id != b.id && a.report.bytes != b.id && Carries(s, [a, b])
    ensures ParseEntries(s, [b.id], 2).got == [None]
  {
    var ids, at := [b.id], CONTROL_HEADER;
    EntryFound(s, [a, b], 0);
    assert Load(s, at) == a.id && ReportAt(s, at + 8).bytes == a.report.bytes;
    MatchNone(s, a.id, ids, 0, Parsed([None], at + 8));
    assert ParseEntries(s, ids, 1) == Parsed([None], at + 8) by {
      assert ParseEntries(s, ids, 0) == Parsed([None], at);
    }
    MatchNone(s, a.report.bytes, ids, 0, Parsed([None], at + 16));
  }
}
