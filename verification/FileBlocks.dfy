/**
 File blocks on the wire (`example/iperf-bats/iperf_file_transfer.cc`): how the
 sender cuts and packs a file, and how the receiver takes a block apart.

 The compressor is a parameter: a pair of functions of which only the round trip
 is known, and which may refuse to compress by returning nothing.
 */
module FileBlocks {
  import opened Bytes
  import opened FileNames

  const HDR: nat := 1
  const META: nat := 360
  const NAME_AT: nat := 88        // inside the meta data, behind three words and the checksum
  const EXTENSION_AT: nat := 344
  const BUFFER: int := 300000
  /** `bats_iperf_file_code`, lowest byte first. */
  const FILE_CODE: seq<Byte> := [0x74, 0x61, 0x62, 0xff, 0xff, 0xb2, 0xa1, 0x00]
  const MAX_BARS: int := 10

  datatype Codec = Codec(compress: (seq<Byte>, int) -> seq<Byte>, decompress: seq<Byte> -> seq<Byte>)

  ghost predicate RoundTrips(c: Codec) {
    forall d: seq<Byte>, room: int ::
      d != [] && c.compress(d, room) != [] ==> c.decompress(c.compress(d, room)) == d
  }

  /** A file to send: its place in the list given by the user, base name and bytes. */
  datatype File = File(barId: nat, name: seq<Byte>, content: seq<Byte>)

  // ------------------------------------------------------------ the header byte

  datatype BlockHeader = BlockHeader(syn: bool, fin: bool, hasSum: bool, hasComp: bool, fileSeq: int)

  /** The progress-bar number has four bits, so larger numbers are cut. */
  function HeaderByte(h: BlockHeader): Byte
    requires h.fileSeq >= 0
  {
    Bit(h.syn) + 2 * Bit(h.fin) + 4 * Bit(h.hasSum) + 8 * Bit(h.hasComp) + 16 * (h.fileSeq % 16)
  }

  function HeaderOf(b: Byte): BlockHeader {
    BlockHeader(b % 2 == 1, b / 2 % 2 == 1, b / 4 % 2 == 1, b / 8 % 2 == 1, b / 16)
  }

  lemma HeaderRoundTrip(h: BlockHeader)
    requires h.fileSeq >= 0
    ensures HeaderOf(HeaderByte(h)) == h.(fileSeq := h.fileSeq % 16)
  {
    var q := h.fileSeq % 16;
    var r3 := Bit(h.hasComp) + 2 * q;
    var r2 := Bit(h.hasSum) + 2 * r3;
    var r1 := Bit(h.fin) + 2 * r2;
    var b := HeaderByte(h);
    assert b == Bit(h.syn) + 2 * r1;
    assert b / 2 == r1 && b / 4 == r2 && b / 8 == r3 && b / 16 == q;
  }

  /** Where the bits of the header byte lie. */
  lemma HeaderBits(h: BlockHeader)
    requires 0 <= h.fileSeq < 16
    ensures HeaderByte(h) == (if h.syn then 1 else 0) + (if h.fin then 2 else 0) + (if h.hasSum then 4 else 0)
                             + (if h.hasComp then 8 else 0) + 16 * h.fileSeq
  {
  }

  // ----------------------------------------------------------- the sender's block

  /** The file size after its passage through a 32-bit `int`. */
  function TotalLength(size: nat): int {
    var w := size % U32;
    if w < 0x8000_0000 then w else w - U32
  }

  /** That length as the 64-bit number the byte count is compared with. */
  function FinTarget(size: nat): nat {
    var t := TotalLength(size);
    if t < 0 then t + U64 else t
  }

  /** The comparison that marks the last block can succeed at the end of a file exactly below 2 GiB. */
  lemma FinTargetIsSize(size: nat)
    requires size < U64 - U32
    ensures FinTarget(size) == size <==> size < 0x8000_0000
    ensures 0x8000_0000 <= size < U32 ==> FinTarget(size) > size
  {
  }

  /** How many bytes one round asks the file for. */
  function ReadLength(ideal: int, sent: nat, compression: bool): int {
    var want := if sent == 0 then ideal - META - HDR else ideal - META;
    if compression && want > BUFFER then BUFFER else want
  }

  /** What goes on the wire for the bytes read: compressed only when that is not longer. */
  function Pack(c: Codec, compression: bool, data: seq<Byte>, room: int): (bool, seq<Byte>) {
    if !compression then (false, data)
    else
      var z := c.compress(data, room);
      if z == [] || |data| < |z| then (false, data) else (true, z)
  }

  function Meta(streamId: nat, f: File): (m: seq<Byte>)
    ensures |m| == META
  {
    FILE_CODE + ToLE(streamId, 8) + [0] + ToLE(FinTarget(|f.content|), 7)
    + Zeros(64) + Field(NameOnly(f.name), MAX_NAME) + Field(Extension(f.name), MAX_EXTENSION)
  }

  function Prefix(streamId: nat, f: File, sent: nat): seq<Byte> {
    if sent == 0 then Meta(streamId, f) else []
  }

  /** The block for bytes `sent .. sent + n` of the file. */
  function BuildBlock(c: Codec, compression: bool, streamId: nat, f: File, sent: nat, n: nat): seq<Byte>
    requires sent + n <= |f.content|
  {
    var pre := Prefix(streamId, f, sent);
    var (comp, payload) := Pack(c, compression, f.content[sent..sent + n], BUFFER - HDR - |pre|);
    var h := BlockHeader(sent == 0, sent + n == FinTarget(|f.content|), false, comp, f.barId);
    [HeaderByte(h)] + pre + payload
  }

  // --------------------------------------------------------- the receiver's view

  function Syn(b: seq<Byte>): bool
    requires b != []
  {
    HeaderOf(b[0]).syn
  }

  function Fin(b: seq<Byte>): bool
    requires b != []
  {
    HeaderOf(b[0]).fin
  }

  /** Where the file content starts. */
  function ContentAt(b: seq<Byte>): nat
    requires b != []
  {
    if Syn(b) then HDR + META else HDR
  }

  /** The bytes to be written for a block; empty when there are none or decompression fails. */
  function Decode(c: Codec, b: seq<Byte>): seq<Byte>
    requires b != []
  {
    if |b| <= ContentAt(b) then []
    else if HeaderOf(b[0]).hasComp then c.decompress(b[ContentAt(b)..])
    else b[ContentAt(b)..]
  }

  /** The file name a first block announces. */
  function NameIn(b: seq<Byte>): seq<Byte>
    requires |b| >= HDR + META
  {
    Rejoin(ReadField(b[HDR + NAME_AT..HDR + EXTENSION_AT]), ReadField(b[HDR + EXTENSION_AT..HDR + META]))
  }

  // ------------------------------------------------------------------ one block

  lemma MetaFields(streamId: nat, f: File)
    ensures Meta(streamId, f)[NAME_AT..EXTENSION_AT] == Field(NameOnly(f.name), MAX_NAME)
    ensures Meta(streamId, f)[EXTENSION_AT..META] == Field(Extension(f.name), MAX_EXTENSION)
  {
    var head := FILE_CODE + ToLE(streamId, 8) + [0] + ToLE(FinTarget(|f.content|), 7) + Zeros(64);
    assert |head| == NAME_AT;
  }

  /**
   The receiver reads out of a block exactly what the sender meant by it: the flags,
   the name on a first block, and the very bytes of the file.
   */
  lemma BlockReads(c: Codec, compression: bool, streamId: nat, f: File, sent: nat, n: nat)
    requires RoundTrips(c) && n > 0 && sent + n <= |f.content|
    ensures var b := BuildBlock(c, compression, streamId, f, sent, n);
            && |b| > ContentAt(b)
            && Syn(b) == (sent == 0)
            && Fin(b) == (sent + n == FinTarget(|f.content|))
            && HeaderOf(b[0]).fileSeq == f.barId % 16
            && Decode(c, b) == f.content[sent..sent + n]
            && (sent == 0 ==> NameIn(b) == Transferred(f.name))
  {
    var pre := Prefix(streamId, f, sent);
    var data := f.content[sent..sent + n];
    var (comp, payload) := Pack(c, compression, data, BUFFER - HDR - |pre|);
    var h := BlockHeader(sent == 0, sent + n == FinTarget(|f.content|), false, comp, f.barId);
    var b := BuildBlock(c, compression, streamId, f, sent, n);
    HeaderRoundTrip(h);
    assert b[HDR + |pre|..] == payload;
    if sent == 0 {
      MetaFields(streamId, f);
      assert b[HDR..HDR + META] == Meta(streamId, f);
      assert b[HDR + NAME_AT..HDR + EXTENSION_AT] == b[HDR..HDR + META][NAME_AT..EXTENSION_AT];
      assert b[HDR + EXTENSION_AT..HDR + META] == b[HDR..HDR + META][EXTENSION_AT..META];
    }
  }

  /**
   A block is compressed exactly when compression is on and the compressor gave something no
   longer than the data, and what follows header and meta data is that or the data.
   */
  lemma BlockPayload(c: Codec, compression: bool, streamId: nat, f: File, sent: nat, n: nat)
    requires sent + n <= |f.content|
    ensures var b := BuildBlock(c, compression, streamId, f, sent, n);
            var data := f.content[sent..sent + n];
            var at := if sent == 0 then 361 else 1;
            var z := c.compress(data, 300000 - at);
            && |b| >= at
            && (HeaderOf(b[0]).hasComp <==> compression && z != [] && |z| <= n)
            && b[at..] == if HeaderOf(b[0]).hasComp then z else data
  {
    var pre := Prefix(streamId, f, sent);
    var data := f.content[sent..sent + n];
    var (comp, payload) := Pack(c, compression, data, BUFFER - HDR - |pre|);
    var h := BlockHeader(sent == 0, sent + n == FinTarget(|f.content|), false, comp, f.barId);
    HeaderRoundTrip(h);
    var b := BuildBlock(c, compression, streamId, f, sent, n);
    assert b == [HeaderByte(h)] + pre + payload;
    assert b[1 + |pre|..] == payload;
  }

  /** The meta data of a first block, field by field. */
  lemma MetaReads(streamId: nat, f: File)
    ensures var m := Meta(streamId, f);
            && m[..8] == [0x74, 0x61, 0x62, 0xff, 0xff, 0xb2, 0xa1, 0x00]
            && FromLE(m[8..16]) == streamId % 0x1_0000_0000_0000_0000 && m[16] == 0
            && (|f.content| < 0x8000_0000 ==> FromLE(m[17..24]) == |f.content|)
            && forall i :: 24 <= i < 88 ==> m[i] == 0
  {
    var size := FinTarget(|f.content|);
    var m := Meta(streamId, f);
    MetaParts(FILE_CODE, ToLE(streamId, 8), ToLE(size, 7), Zeros(64),
              Field(NameOnly(f.name), MAX_NAME) + Field(Extension(f.name), MAX_EXTENSION), m);
    Limits();
    LERoundTrip(streamId, 8);
    SevenBytes(size);
    if |f.content| < 0x8000_0000 {
      FinTargetIsSize(|f.content|);
    }
  }

  lemma MetaParts(a: seq<Byte>, b: seq<Byte>, c: seq<Byte>, d: seq<Byte>, e: seq<Byte>, m: seq<Byte>)
    requires |a| == 8 && |b| == 8 && |c| == 7 && |d| == 64 && m == a + b + [0] + c + d + e
    ensures m[..8] == a && m[8..16] == b && m[16] == 0 && m[17..24] == c && m[24..88] == d
  {
  }

  lemma SevenBytes(v: nat)
    ensures v < 0x8000_0000 ==> FromLE(ToLE(v, 7)) == v
  {
    Limits();
    LERoundTrip(v, 7);
    assert Limit(5) == 256 * Limit(4);
    assert Limit(6) == 256 * Limit(5);
    assert Limit(7) == 256 * Limit(6);
  }

  /** A block never outgrows the ideal length, whether or not it was compressed. */
  lemma BlockFits(c: Codec, compression: bool, streamId: nat, f: File, sent: nat, n: nat, ideal: int)
    requires sent + n <= |f.content| && n <= ReadLength(ideal, sent, compression)
    ensures |BuildBlock(c, compression, streamId, f, sent, n)| <= ideal
  {
  }

  // --------------------------------------------------------------- a whole file

  /** Piece `i` is not empty and block `i` is its block. */
  ghost predicate Piece(c: Codec, compression: bool, streamId: nat, f: File,
                        cuts: seq<nat>, blocks: seq<seq<Byte>>, i: int)
    requires 0 <= i < |blocks| < |cuts|
  {
    && cuts[i] < cuts[i + 1] <= |f.content|
    && blocks[i] == BuildBlock(c, compression, streamId, f, cuts[i], cuts[i + 1] - cuts[i])
  }

  /** `cuts` divides the file into consecutive non-empty pieces and `blocks` are their blocks. */
  ghost predicate Segments(c: Codec, compression: bool, streamId: nat, f: File,
                           cuts: seq<nat>, blocks: seq<seq<Byte>>)
  {
    && |cuts| == |blocks| + 1 && cuts[0] == 0
    && forall i :: 0 <= i < |blocks| ==> Piece(c, compression, streamId, f, cuts, blocks, i)
  }

  /** The receiver's bytes for a run of blocks. */
  ghost function DecodeAll(c: Codec, blocks: seq<seq<Byte>>): seq<Byte>
    requires forall i :: 0 <= i < |blocks| ==> blocks[i] != []
  {
    if blocks == [] then []
    else DecodeAll(c, blocks[..|blocks| - 1]) + Decode(c, blocks[|blocks| - 1])
  }

  lemma PiecesBefore(c: Codec, compression: bool, streamId: nat, f: File,
                     cuts: seq<nat>, blocks: seq<seq<Byte>>)
    requires Segments(c, compression, streamId, f, cuts, blocks) && blocks != []
    ensures Segments(c, compression, streamId, f, cuts[..|blocks|], blocks[..|blocks| - 1])
  {
    var k := |blocks| - 1;
    var lessCuts, lessBlocks := cuts[..k + 1], blocks[..k];
    forall i | 0 <= i < k
      ensures Piece(c, compression, streamId, f, lessCuts, lessBlocks, i)
    {
      assert Piece(c, compression, streamId, f, cuts, blocks, i);
    }
  }

  lemma PieceDecodes(c: Codec, compression: bool, streamId: nat, f: File,
                     cuts: seq<nat>, blocks: seq<seq<Byte>>, i: int)
    requires RoundTrips(c) && 0 <= i < |blocks| < |cuts|
    requires Piece(c, compression, streamId, f, cuts, blocks, i)
    ensures cuts[i] <= cuts[i + 1] <= |f.content| && blocks[i] != []
    ensures Decode(c, blocks[i]) == f.content[cuts[i]..cuts[i + 1]]
  {
    BlockDecodes(c, compression, streamId, f, cuts[i], cuts[i + 1], blocks[i]);
  }

  /** The part of `BlockReads` about the content. */
  lemma BlockDecodes(c: Codec, compression: bool, streamId: nat, f: File, from: nat, to: nat, b: seq<Byte>)
    requires RoundTrips(c) && from < to <= |f.content| && b == BuildBlock(c, compression, streamId, f, from, to - from)
    ensures b != [] && Decode(c, b) == f.content[from..to]
  {
    var n := to - from;
    BlockReads(c, compression, streamId, f, from, n);
    assert from + n == to;
  }

  /** Whatever the cuts, the blocks decode to the file up to the last cut. */
  lemma {:induction false} SegmentsDecode(c: Codec, compression: bool, streamId: nat, f: File,
                                          cuts: seq<nat>, blocks: seq<seq<Byte>>)
    requires RoundTrips(c) && Segments(c, compression, streamId, f, cuts, blocks)
    ensures cuts[|blocks|] <= |f.content|
    ensures forall i :: 0 <= i < |blocks| ==> blocks[i] != []
    ensures DecodeAll(c, blocks) == f.content[..cuts[|blocks|]]
  {
    if blocks != [] {
      var k := |blocks| - 1;
      PiecesBefore(c, compression, streamId, f, cuts, blocks);
      SegmentsDecode(c, compression, streamId, f, cuts[..k + 1], blocks[..k]);
      PieceDecodes(c, compression, streamId, f, cuts, blocks, k);
      DecodedPiece(c, f, cuts[k], cuts[k + 1], blocks[..k], blocks[k]);
      assert blocks == blocks[..k] + [blocks[k]];
    }
  }

  lemma DecodedPiece(c: Codec, f: File, from: nat, to: nat, blocks: seq<seq<Byte>>, last: seq<Byte>)
    requires from <= to <= |f.content| && last != []
    requires forall i :: 0 <= i < |blocks| ==> blocks[i] != []
    requires DecodeAll(c, blocks) == f.content[..from] && Decode(c, last) == f.content[from..to]
    ensures forall i :: 0 <= i < |blocks + [last]| ==> (blocks + [last])[i] != []
    ensures DecodeAll(c, blocks + [last]) == f.content[..to]
  {
    assert (blocks + [last])[..|blocks|] == blocks;
    assert f.content[..from] + f.content[from..to] == f.content[..to];
  }

  /** Cut points rise, so only the first is 0 and only the last can be the end of the file. */
  lemma {:induction false} CutsRise(c: Codec, compression: bool, streamId: nat, f: File,
                                    cuts: seq<nat>, blocks: seq<seq<Byte>>, i: int, j: int)
    requires Segments(c, compression, streamId, f, cuts, blocks)
    requires 0 <= i < j < |cuts|
    ensures cuts[i] < cuts[j]
    decreases j - i
  {
    assert Piece(c, compression, streamId, f, cuts, blocks, j - 1);
    if i + 1 < j {
      CutsRise(c, compression, streamId, f, cuts, blocks, i, j - 1);
    }
  }

  lemma PieceFlags(c: Codec, compression: bool, streamId: nat, f: File,
                   cuts: seq<nat>, blocks: seq<seq<Byte>>, i: int)
    requires RoundTrips(c) && 0 <= i < |blocks| < |cuts|
    requires Piece(c, compression, streamId, f, cuts, blocks, i)
    ensures blocks[i] != [] && Syn(blocks[i]) == (cuts[i] == 0)
    ensures Fin(blocks[i]) == (cuts[i + 1] == FinTarget(|f.content|))
  {
    BlockFlags(c, compression, streamId, f, cuts[i], cuts[i + 1], blocks[i]);
  }

  /** The part of `BlockReads` about the flags. */
  lemma BlockFlags(c: Codec, compression: bool, streamId: nat, f: File, from: nat, to: nat, b: seq<Byte>)
    requires RoundTrips(c) && from < to <= |f.content| && b == BuildBlock(c, compression, streamId, f, from, to - from)
    ensures b != [] && Syn(b) == (from == 0) && Fin(b) == (to == FinTarget(|f.content|))
  {
    var n := to - from;
    BlockReads(c, compression, streamId, f, from, n);
    assert from + n == to;
  }

  /**
   In a completely cut file, `syn` marks the first block and no other; `fin` marks the
   last block exactly when the file is below 2 GiB, and then no other block.
   */
  lemma FlagsMarkTheEnds(c: Codec, compression: bool, streamId: nat, f: File,
                         cuts: seq<nat>, blocks: seq<seq<Byte>>, i: int)
    requires RoundTrips(c) && Segments(c, compression, streamId, f, cuts, blocks)
    requires cuts[|blocks|] == |f.content| < U64 - U32 && 0 <= i < |blocks|
    ensures blocks[i] != [] && (Syn(blocks[i]) <==> i == 0)
    ensures i == |blocks| - 1 ==> (Fin(blocks[i]) <==> |f.content| < 0x8000_0000)
    ensures |f.content| < 0x8000_0000 ==> (Fin(blocks[i]) <==> i == |blocks| - 1)
    ensures 0x8000_0000 <= |f.content| < U32 ==> !Fin(blocks[i])
  {
    var size := |f.content|;
    FinTargetIsSize(size);
    assert Piece(c, compression, streamId, f, cuts, blocks, i);
    PieceFlags(c, compression, streamId, f, cuts, blocks, i);
    if i > 0 {
      CutsRise(c, compression, streamId, f, cuts, blocks, 0, i);
    }
    if i < |blocks| - 1 {
      CutsRise(c, compression, streamId, f, cuts, blocks, i + 1, |blocks|);
    }
  }

  lemma PieceStays(c: Codec, compression: bool, streamId: nat, f: File,
                   cuts: seq<nat>, blocks: seq<seq<Byte>>, to: nat, block: seq<Byte>, i: int)
    requires 0 <= i < |blocks| < |cuts| && Piece(c, compression, streamId, f, cuts, blocks, i)
    ensures Piece(c, compression, streamId, f, cuts + [to], blocks + [block], i)
  {
    assert (cuts + [to])[i] == cuts[i] && (cuts + [to])[i + 1] == cuts[i + 1] && (blocks + [block])[i] == blocks[i];
  }

  lemma NewPiece(c: Codec, compression: bool, streamId: nat, f: File,
                 cuts: seq<nat>, blocks: seq<seq<Byte>>, to: nat, block: seq<Byte>)
    requires |cuts| == |blocks| + 1 && cuts[|blocks|] < to <= |f.content|
    requires block == BuildBlock(c, compression, streamId, f, cuts[|blocks|], to - cuts[|blocks|])
    ensures Piece(c, compression, streamId, f, cuts + [to], blocks + [block], |blocks|)
  {
    var k := |blocks|;
    assert (cuts + [to])[k] == cuts[k] && (cuts + [to])[k + 1] == to && (blocks + [block])[k] == block;
  }

  lemma AppendPiece(c: Codec, compression: bool, streamId: nat, f: File,
                    cuts: seq<nat>, blocks: seq<seq<Byte>>, to: nat, block: seq<Byte>)
    requires Segments(c, compression, streamId, f, cuts, blocks)
    requires cuts[|blocks|] < to <= |f.content|
    requires block == BuildBlock(c, compression, streamId, f, cuts[|blocks|], to - cuts[|blocks|])
    ensures Segments(c, compression, streamId, f, cuts + [to], blocks + [block])
  {
    forall i | 0 <= i < |blocks|
      ensures Piece(c, compression, streamId, f, cuts + [to], blocks + [block], i)
    {
      assert Piece(c, compression, streamId, f, cuts, blocks, i);
      PieceStays(c, compression, streamId, f, cuts, blocks, to, block, i);
    }
    NewPiece(c, compression, streamId, f, cuts, blocks, to, block);
  }

  // ---------------------------------------------------------------- the send buffer

  /** The header byte with the fields set once for each file replaced: bar number and checksum bit. */
  function WithFile(b: Byte, barId: nat): Byte {
    b % 2 + 2 * (b / 2 % 2) + 8 * (b / 8 % 2) + 16 * (barId % 16)
  }

  /** The header byte with the fields set in each round replaced; the others stay. */
  function WithFlags(b: Byte, syn: bool, fin: bool, comp: bool): Byte {
    Bit(syn) + 2 * Bit(fin) + 4 * (b / 4 % 2) + 8 * Bit(comp) + 16 * (b / 16)
  }

  lemma FlagsOnFile(b: Byte, barId: nat, syn: bool, fin: bool, comp: bool)
    requires b / 4 % 2 == 0 && b / 16 == barId % 16
    ensures var c := WithFlags(b, syn, fin, comp);
            && c == HeaderByte(BlockHeader(syn, fin, false, comp, barId))
            && c / 4 % 2 == 0 && c / 16 == barId % 16
  {
    HeaderRoundTrip(BlockHeader(syn, fin, false, comp, barId));
  }

  lemma FileFields(b: Byte, barId: nat)
    ensures WithFile(b, barId) / 4 % 2 == 0 && WithFile(b, barId) / 16 == barId % 16
  {
    var r := 2 * (barId % 16) + b / 8 % 2;
    var c := WithFile(b, barId);
    assert c == b % 2 + 2 * (b / 2 % 2) + 8 * r;
    assert c / 8 == r && c / 4 == 2 * r;
  }

  /** Copy bytes into the buffer; nothing else changes. */
  method CopyTo(buf: array<Byte>, at: nat, data: seq<Byte>)
    requires at + |data| <= buf.Length
    modifies buf
    ensures buf[..at + |data|] == old(buf[..at]) + data
  {
    forall i | 0 <= i < |data| {
      buf[at + i] := data[i];
    }
  }

  /**
   One round over the reused send buffer: header bits, meta data on the first block,
   content compressed or raw. What the buffer then starts with is the block.
   */
  method FillBuffer(c: Codec, compression: bool, streamId: nat, f: File, sent: nat, n: nat, buf: array<Byte>)
    returns (bytesToSend: nat)
    requires buf.Length == BUFFER && sent + n <= |f.content|
    requires n <= BUFFER - HDR - (if sent == 0 then META else 0)
    requires buf[0] / 4 % 2 == 0 && buf[0] / 16 == f.barId % 16
    modifies buf
    ensures bytesToSend <= BUFFER
    ensures buf[..bytesToSend] == BuildBlock(c, compression, streamId, f, sent, n)
    ensures buf[0] / 4 % 2 == 0 && buf[0] / 16 == f.barId % 16
  {
    var syn, fin := sent == 0, sent + n == FinTarget(|f.content|);
    var pre := Prefix(streamId, f, sent);
    var data := f.content[sent..sent + n];
    var (comp, payload) := Pack(c, compression, data, BUFFER - HDR - |pre|);
    FlagsOnFile(buf[0], f.barId, syn, fin, comp);
    buf[0] := WithFlags(buf[0], syn, fin, comp);
    ghost var first := buf[0];
    assert buf[..HDR] == [first];
    CopyTo(buf, HDR, pre);
    CopyTo(buf, HDR + |pre|, payload);
    bytesToSend := HDR + |pre| + |payload|;
    assert buf[..bytesToSend][0] == first;
  }

  /**
   A piece is as long as the ideal length allows: 361 bytes less than it for a first piece,
   360 otherwise, with compression 300000 at most; only the last piece may be shorter.
   */
  ghost predicate FullPiece(from: nat, to: nat, size: nat, ideal: int, compression: bool) {
    var room := ideal - (if from == 0 then 361 else 360);
    var most := if compression && room > 300000 then 300000 else room;
    from <= to && to - from <= most && (to < size ==> to - from == most)
  }

  /** One round up to the sending: read from the file and, unless nothing was left, fill the buffer. */
  method ReadRound(c: Codec, compression: bool, streamId: nat, f: File, sent: nat, ideal: int, buf: array<Byte>)
    returns (eof: bool, nread: nat, block: seq<Byte>)
    requires buf.Length == BUFFER && sent <= |f.content| && HDR + META < ideal <= BUFFER
    requires buf[0] / 4 % 2 == 0 && buf[0] / 16 == f.barId % 16
    modifies buf
    ensures buf[0] / 4 % 2 == 0 && buf[0] / 16 == f.barId % 16
    ensures sent + nread <= |f.content| && (eof ==> sent + nread == |f.content|) && (nread > 0 || eof)
    ensures nread > 0 ==> block == BuildBlock(c, compression, streamId, f, sent, nread) && |block| <= ideal
    ensures FullPiece(sent, sent + nread, |f.content|, ideal, compression)
    ensures eof <==> |f.content| - sent < ideal - (if sent == 0 then 361 else 360)
  {
    var want := ReadLength(ideal, sent, compression);
    var left := |f.content| - sent;
    nread := if want <= left then want else left;
    eof, block := left < want, [];
    if nread > 0 {
      var length := FillBuffer(c, compression, streamId, f, sent, nread, buf);
      BlockFits(c, compression, streamId, f, sent, nread, ideal);
      block := buf[..length];
    }
  }

  // -------------------------------------------------------------------- the send loop

  /**
   What one round of the send loop meets: the ideal length, whether the loop is left
   before it (disconnected, stopped, error), and whether the transport takes the block
   in the end. It gives up only on conditions that make the loop end.
   */
  datatype Round = Round(ideal: int, leave: bool, accepted: bool)

  /** The piece a block was made of in its round is as long as it could be, and the transport took the block. */
  ghost predicate SentInRound(r: Round, blocks: seq<seq<Byte>>, cuts: seq<nat>, i: nat, size: nat, compression: bool)
    requires i < |blocks| && |cuts| == |blocks| + 1
  {
    !r.leave && r.accepted && |blocks[i]| <= r.ideal && FullPiece(cuts[i], cuts[i + 1], size, r.ideal, compression)
  }

  ghost predicate AllSent(rounds: nat -> Round, blocks: seq<seq<Byte>>, cuts: seq<nat>, size: nat, compression: bool)
    requires |cuts| == |blocks| + 1
  {
    forall i: nat :: i < |blocks| ==> SentInRound(rounds(i), blocks, cuts, i, size, compression)
  }

  lemma OneMoreSent(rounds: nat -> Round, blocks: seq<seq<Byte>>, cuts: seq<nat>, size: nat, compression: bool,
                    to: nat, block: seq<Byte>)
    requires |cuts| == |blocks| + 1 && AllSent(rounds, blocks, cuts, size, compression)
    requires var r := rounds(|blocks|);
             !r.leave && r.accepted && |block| <= r.ideal
             && FullPiece(cuts[|blocks|], to, size, r.ideal, compression)
    ensures AllSent(rounds, blocks + [block], cuts + [to], size, compression)
  {
    forall i: nat | i < |blocks + [block]|
      ensures SentInRound(rounds(i), blocks + [block], cuts + [to], i, size, compression)
    {
      if i < |blocks| {
        assert SentInRound(rounds(i), blocks, cuts, i, size, compression);
      }
    }
  }

  /**
   The inner loop of the sending thread for one file. `blocks` are the blocks the
   transport took. The loop ends because each round either takes bytes from the file or
   meets its end; whatever fails, the blocks cut a prefix of the file, and `sentBytes` is
   ahead of it exactly when a block was abandoned, after which nothing is sent.
   */
  method SendFile(c: Codec, compression: bool, streamId: nat, f: File, rounds: nat -> Round, buf: array<Byte>)
    returns (blocks: seq<seq<Byte>>, cuts: seq<nat>, sentBytes: nat)
    requires forall r: nat :: HDR + META < rounds(r).ideal <= BUFFER
    requires buf.Length == BUFFER
    modifies buf
    ensures Segments(c, compression, streamId, f, cuts, blocks)
    ensures cuts[|blocks|] <= sentBytes <= |f.content|
    ensures AllSent(rounds, blocks, cuts, |f.content|, compression)
    ensures cuts[|blocks|] < sentBytes ==>
              && !rounds(|blocks|).accepted
              && FullPiece(cuts[|blocks|], sentBytes, |f.content|, rounds(|blocks|).ideal, compression)
    ensures cuts[|blocks|] < |f.content| ==> rounds(|blocks|).leave || !rounds(|blocks|).accepted
  {
    FileFields(buf[0], f.barId);
    buf[0] := WithFile(buf[0], f.barId);
    blocks, cuts, sentBytes := [], [0], 0;
    var eof, lost := false, false;
    while !eof && !lost && !rounds(|blocks|).leave
      invariant buf[0] / 4 % 2 == 0 && buf[0] / 16 == f.barId % 16
      invariant Segments(c, compression, streamId, f, cuts, blocks)
      invariant cuts[|blocks|] <= sentBytes <= |f.content|
      invariant !lost ==> sentBytes == cuts[|blocks|]
      invariant lost ==> !rounds(|blocks|).accepted
      invariant lost ==> FullPiece(cuts[|blocks|], sentBytes, |f.content|, rounds(|blocks|).ideal, compression)
      invariant eof && !lost ==> sentBytes == |f.content|
      invariant AllSent(rounds, blocks, cuts, |f.content|, compression)
      decreases |f.content| - sentBytes, !eof
    {
      eof, lost, blocks, cuts, sentBytes := SendRound(c, compression, streamId, f, rounds, blocks, cuts, buf);
    }
  }

  /** One round of the loop: read, fill, send; the block is taken, given up, or there was none left. */
  method SendRound(c: Codec, compression: bool, streamId: nat, f: File, rounds: nat -> Round,
                   was: seq<seq<Byte>>, oldCuts: seq<nat>, buf: array<Byte>)
    returns (eof: bool, lost: bool, blocks: seq<seq<Byte>>, cuts: seq<nat>, sentBytes: nat)
    requires Segments(c, compression, streamId, f, oldCuts, was) && oldCuts[|was|] <= |f.content|
    requires AllSent(rounds, was, oldCuts, |f.content|, compression)
    requires !rounds(|was|).leave && HDR + META < rounds(|was|).ideal <= BUFFER
    requires buf.Length == BUFFER && buf[0] / 4 % 2 == 0 && buf[0] / 16 == f.barId % 16
    modifies buf
    ensures buf[0] / 4 % 2 == 0 && buf[0] / 16 == f.barId % 16
    ensures Segments(c, compression, streamId, f, cuts, blocks)
    ensures AllSent(rounds, blocks, cuts, |f.content|, compression)
    ensures cuts[|blocks|] <= sentBytes <= |f.content| && (sentBytes > oldCuts[|was|] || eof)
    ensures oldCuts[|was|] <= sentBytes && (eof ==> sentBytes == |f.content|)
    ensures if lost
            then cuts == oldCuts && blocks == was && !rounds(|was|).accepted
                 && FullPiece(oldCuts[|was|], sentBytes, |f.content|, rounds(|was|).ideal, compression)
            else sentBytes == cuts[|blocks|]
  {
    var round, sent := rounds(|was|), oldCuts[|was|];
    var nread, block;
    eof, nread, block := ReadRound(c, compression, streamId, f, sent, round.ideal, buf);
    lost, blocks, cuts, sentBytes := false, was, oldCuts, sent + nread;
    if nread > 0 {
      if round.accepted {
        AppendPiece(c, compression, streamId, f, cuts, blocks, sentBytes, block);
        OneMoreSent(rounds, blocks, cuts, |f.content|, compression, sentBytes, block);
        cuts := cuts + [sentBytes];
        blocks := blocks + [block];
      } else {
        lost := true;
      }
    }
  }
}
