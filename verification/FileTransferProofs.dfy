/**
 What every step of a file transfer keeps, stream by stream, and the theorems
 about whole runs that follow.
 */
module FileTransferProofs {
  import opened Bytes
  import opened Options
  import opened FileBlocks
  import opened FileTransferSystem

  /**
   The transfers the theorems are about: a compressor that round-trips, files below
   2 GiB whose stored names differ, and bar numbers whose four bits on the wire are
   within the ten bars. The client takes at most ten paths, which gives the last one.
   */
  ghost predicate GoodConfig(cfg: Config) {
    && RoundTrips(cfg.codec)
    && (forall f: nat :: f < |cfg.files| ==> cfg.Size(f) < 0x8000_0000 && cfg.files[f].barId % 16 < MAX_BARS)
    && (forall f: nat, g: nat :: f < g < |cfg.files| ==> cfg.Name(f) != cfg.Name(g))
  }

  // ----------------------------------------------------------- what a channel holds

  ghost predicate PacketOk(cfg: Config, i: nat, p: Packet) {
    && p.file < |cfg.files| && p.n > 0 && p.off + p.n <= cfg.Size(p.file)
    && p.bytes == BuildBlock(cfg.codec, cfg.compression, i, cfg.files[p.file], p.off, p.n)
  }

  /** A packet either starts a file not seen before or continues where the receiver stands. */
  ghost predicate Continues(pr: Progress, p: Packet) {
    if p.off == 0 then p.file !in pr.started else pr.cur == At(p.file, p.off)
  }

  ghost predicate ChanOk(cfg: Config, i: nat, pr: Progress, chan: seq<Packet>)
    decreases |chan|
  {
    chan == [] ||
    (PacketOk(cfg, i, chan[0]) && Continues(pr, chan[0])
     && ChanOk(cfg, i, After(cfg, pr, chan[0]), chan[1..]))
  }

  /** Where the receiver will stand once the channel is drained. */
  ghost function EndOf(cfg: Config, i: nat, pr: Progress, chan: seq<Packet>): Progress
    requires ChanOk(cfg, i, pr, chan)
    decreases |chan|
  {
    if chan == [] then pr else EndOf(cfg, i, After(cfg, pr, chan[0]), chan[1..])
  }

  lemma {:induction false} ChanAppend(cfg: Config, i: nat, pr: Progress, chan: seq<Packet>, p: Packet)
    requires ChanOk(cfg, i, pr, chan) && PacketOk(cfg, i, p) && Continues(EndOf(cfg, i, pr, chan), p)
    ensures ChanOk(cfg, i, pr, chan + [p])
    ensures EndOf(cfg, i, pr, chan + [p]) == After(cfg, EndOf(cfg, i, pr, chan), p)
    decreases |chan|
  {
    if chan == [] {
      assert ChanOk(cfg, i, After(cfg, pr, p), (chan + [p])[1..]);
    } else {
      ChanAppend(cfg, i, After(cfg, pr, chan[0]), chan[1..], p);
      assert (chan + [p])[1..] == chan[1..] + [p];
    }
  }

  /** Files only get added to what has been started and completed. */
  lemma {:induction false} EndGrows(cfg: Config, i: nat, pr: Progress, chan: seq<Packet>)
    requires ChanOk(cfg, i, pr, chan)
    ensures pr.started <= EndOf(cfg, i, pr, chan).started
    ensures pr.complete <= EndOf(cfg, i, pr, chan).complete
    ensures forall f :: f in EndOf(cfg, i, pr, chan).started ==>
              f in pr.started || exists k :: 0 <= k < |chan| && chan[k].file == f
    decreases |chan|
  {
    if chan != [] {
      EndGrows(cfg, i, After(cfg, pr, chan[0]), chan[1..]);
      forall f | f in EndOf(cfg, i, pr, chan).started
        ensures f in pr.started || exists k :: 0 <= k < |chan| && chan[k].file == f
      {
        if f !in pr.started && f != chan[0].file {
          var k :| 0 <= k < |chan[1..]| && chan[1..][k].file == f;
          assert chan[k + 1].file == f;
        }
      }
    }
  }

  // ------------------------------------------------------------ what a thread knows

  predicate HasFile(ph: Phase) {
    ph.AtInner? || ph.Filling? || ph.Sending?
  }

  /** A thread and the end of its channel agree on how far the file at hand has got. */
  ghost predicate AtPosition(cfg: Config, f: nat, sent: nat, lost: bool, end: Progress) {
    && f < |cfg.files| && sent <= cfg.Size(f)
    && (sent == 0 ==> f !in end.started)
    && (sent > 0 && !lost ==>
          if sent == cfg.Size(f) then f in end.complete else end.cur == At(f, sent))
  }

  ghost predicate ThreadOk(cfg: Config, i: nat, t: Thread, end: Progress, done: bool) {
    var ph := t.phase;
    && (t.lost ==> (t.err || !Active(t, done)) && !ph.Filling? && !ph.Sending?)
    && (ph.AtInner? ==> AtPosition(cfg, ph.f, ph.sent, t.lost, end)
                        && (ph.eof ==> ph.sent == cfg.Size(ph.f)))
    && (ph.Filling? ==> AtPosition(cfg, ph.f, ph.sent, t.lost, end))
    && (ph.Sending? ==>
          && AtPosition(cfg, ph.f, ph.sent, t.lost, end)
          && PacketOk(cfg, i, Packet(ph.bytes, ph.f, ph.sent, ph.n))
          && (ph.eof ==> ph.sent + ph.n == cfg.Size(ph.f)))
  }

  lemma FillKeepsThread(cfg: Config, i: nat, t: Thread, end: Progress, done: bool, ideal: int)
    requires ThreadOk(cfg, i, t, end, done) && t.phase.Filling?
    ensures ThreadOk(cfg, i, FillBlock(cfg, i, t, ideal), end, done)
  {
  }

  /**
   A round of reading takes all the ideal length allows: 361 bytes less for a first block, 360
   otherwise, with compression 300000 at most, and less only at the end of the file.
   */
  lemma FillTakesAll(cfg: Config, i: nat, t: Thread, ideal: int)
    requires t.phase.Filling? && t.phase.f < |cfg.files| && t.phase.sent <= cfg.Size(t.phase.f)
    ensures var f, sent, u := t.phase.f, t.phase.sent, FillBlock(cfg, i, t, ideal).phase;
            var room := ideal - (if sent == 0 then 361 else 360);
            var most := if cfg.compression && room > 300000 then 300000 else room;
            var left := cfg.Size(f) - sent;
            && (most <= 0 ==> u == t.phase)
            && (most > 0 && left == 0 ==> u == AtInner(f, sent, true))
            && (most > 0 && left > 0 ==>
                  && u.Sending? && u.f == f && u.sent == sent && u.n == (if most <= left then most else left)
                  && u.eof == (left < most) && !u.refused
                  && u.bytes == BuildBlock(cfg.codec, cfg.compression, i, cfg.files[f], sent, u.n))
  {
  }

  lemma ThreadStepKeeps(cfg: Config, i: nat, t: Thread, end: Progress, done: bool, step: ThreadStep)
    requires ThreadOk(cfg, i, t, end, done)
    ensures ThreadOk(cfg, i, ApplyThread(cfg, i, done, t, step), end, done)
  {
    if step.Fill? && t.phase.Filling? {
      FillKeepsThread(cfg, i, t, end, done, step.ideal);
    }
  }

  // ------------------------------------------------------- what one stream guarantees

  ghost predicate StreamOk(cfg: Config, i: nat, st: Stream, done: bool) {
    && ChanOk(cfg, i, st.progress, st.chan)
    && ThreadOk(cfg, i, st.thread, EndOf(cfg, i, st.progress, st.chan), done)
  }

  /** Everything a stream touches are files it has taken from the queue. */
  ghost predicate OwnOk(i: nat, st: Stream, taken: map<nat, nat>) {
    && st.progress.complete <= st.progress.started
    && (forall f :: f in st.progress.started ==> f in taken && taken[f] == i)
    && (forall k :: 0 <= k < |st.chan| ==> st.chan[k].file in taken && taken[st.chan[k].file] == i)
    && (HasFile(st.thread.phase) ==> st.thread.phase.f in taken && taken[st.thread.phase.f] == i)
  }

  /** What is on the receiver's disk for the files of one stream. */
  ghost predicate DiskOk(cfg: Config, st: Stream, disk: Disk) {
    ProgressOk(cfg, st.progress, st.sink, disk)
  }

  /** Of every file that was opened a prefix is stored, and all that arrived of a file that never failed. */
  ghost predicate ProgressOk(cfg: Config, pr: Progress, k: Sink, disk: Disk) {
    && SetsOk(pr, k)
    && StartedOk(cfg, k.begun, disk)
    && CompleteOk(cfg, pr.complete - k.failed, k.begun, disk)
    && CursorOk(cfg, pr, k, disk)
  }

  ghost predicate SetsOk(pr: Progress, k: Sink) {
    k.begun <= pr.started && k.failed <= pr.started && pr.started - k.failed <= k.begun
  }

  ghost predicate StartedOk(cfg: Config, begun: set<nat>, disk: Disk) {
    forall f :: f in begun ==>
      f < |cfg.files| && cfg.Name(f) in disk && disk[cfg.Name(f)] <= cfg.Content(f)
  }

  ghost predicate CompleteOk(cfg: Config, whole: set<nat>, begun: set<nat>, disk: Disk)
    requires StartedOk(cfg, begun, disk)
  {
    forall f :: f in whole ==> f in begun && disk[cfg.Name(f)] == cfg.Content(f)
  }

  ghost predicate CursorOk(cfg: Config, pr: Progress, k: Sink, disk: Disk)
    requires SetsOk(pr, k) && StartedOk(cfg, k.begun, disk)
  {
    pr.cur.At? ==>
      var f, off := pr.cur.file, pr.cur.off;
      && f < |cfg.files| && f in pr.started && f !in pr.complete && 0 < off < cfg.Size(f)
      && k.writer == Writer(cfg.Name(f), f in k.failed)
      && (f !in k.failed ==> disk[cfg.Name(f)] == cfg.Content(f)[..off])
  }

  // ------------------------------------------------------------------- the receiver

  /** What the receiver can read out of a packet. */
  ghost predicate ReadsAs(cfg: Config, p: Packet) {
    && p.file < |cfg.files| && p.n > 0 && p.off + p.n <= cfg.Size(p.file)
    && p.bytes != [] && |p.bytes| > ContentAt(p.bytes)
    && Syn(p.bytes) == (p.off == 0)
    && Fin(p.bytes) == (p.off + p.n == cfg.Size(p.file))
    && HeaderOf(p.bytes[0]).fileSeq < MAX_BARS
    && Decode(cfg.codec, p.bytes) == cfg.Content(p.file)[p.off..p.off + p.n]
    && (p.off == 0 ==> NameIn(p.bytes) == cfg.Name(p.file))
  }

  lemma PacketReads(cfg: Config, i: nat, p: Packet)
    requires GoodConfig(cfg) && PacketOk(cfg, i, p)
    ensures ReadsAs(cfg, p)
  {
    BlockReads(cfg.codec, cfg.compression, i, cfg.files[p.file], p.off, p.n);
    FinTargetIsSize(cfg.Size(p.file));
  }

  /** How far a file is stored after a block of it, or -1 when the disk is not touched. */
  ghost function Kept(w: Writer, p: Packet, out: Output): int {
    if p.off == 0 && !out.opens then -1
    else if p.off > 0 && IsBroken(w) then -1
    else if out.limit.Some? && out.limit.value < p.n then p.off + out.limit.value
    else p.off + p.n
  }

  ghost function DiskAfter(disk: Disk, name: seq<Byte>, content: seq<Byte>, kept: int): Disk
    requires kept <= |content|
  {
    if kept < 0 then disk else disk[name := content[..kept]]
  }

  /** The writer after a block: broken when anything is missing, closed at the end of the file. */
  ghost function WriterAfter(name: seq<Byte>, whole: bool, fin: bool): Writer {
    if !whole then Writer(name, true) else if fin then NoWriter else Writer(name, false)
  }

  /** The write, for bytes `off .. off + n` of a file of which `off` bytes are stored. */
  lemma WriteRange(d: Disk, numFiles: int, b: seq<Byte>, name: seq<Byte>, content: seq<Byte>, off: nat, n: nat,
                   limit: Option<nat>)
    requires n > 0 && off + n <= |content| && b != [] && HeaderOf(b[0]).fileSeq < MAX_BARS
    requires name in d && d[name] == content[..off]
    ensures var h := WriteData(Writer(name, false), d, numFiles, b, content[off..off + n], limit);
            var to := if limit.Some? && limit.value < n then off + limit.value else off + n;
            && !h.fault && h.finished == (to == off + n && Fin(b))
            && h.disk == d[name := content[..to]]
            && h.numFiles == (if h.finished then CountDown(numFiles) else numFiles)
            && h.writer == WriterAfter(name, to == off + n, Fin(b))
  {
    var to := if limit.Some? && limit.value < n then off + limit.value else off + n;
    assert content[off..off + n][..to - off] == content[off..to];
    assert content[..off] + content[off..to] == content[..to];
  }

  /** The packet's bytes are a block for this part of the content. */
  ghost predicate BlockOf(c: Codec, p: Packet, content: seq<Byte>) {
    && p.n > 0 && p.off + p.n <= |content|
    && p.bytes != [] && |p.bytes| > ContentAt(p.bytes) && HeaderOf(p.bytes[0]).fileSeq < MAX_BARS
    && Syn(p.bytes) == (p.off == 0) && Fin(p.bytes) == (p.off + p.n == |content|)
    && Decode(c, p.bytes) == content[p.off..p.off + p.n]
  }

  /** No assertion fired; the file is stored up to `kept`, and counted when that was its last byte. */
  ghost predicate HandledAs(h: Handled, disk: Disk, numFiles: int, p: Packet, kept: int,
                            name: seq<Byte>, content: seq<Byte>)
  {
    var end := p.off + p.n;
    && !h.fault && kept <= end <= |content|
    && h.finished == (kept == end == |content|)
    && h.disk == DiskAfter(disk, name, content, kept)
    && h.numFiles == (if h.finished then CountDown(numFiles) else numFiles)
    && h.writer == WriterAfter(name, kept == end, end == |content|)
  }

  /**
   One delivery, whatever the file system does: no assertion fires, only the block's own
   file changes and holds a prefix of its content, and it is counted exactly when its last
   block was stored in full.
   */
  lemma HandleOk(cfg: Config, pr: Progress, k: Sink, p: Packet, disk: Disk, numFiles: int, out: Output)
    requires ReadsAs(cfg, p) && Continues(pr, p) && ProgressOk(cfg, pr, k, disk)
    ensures var h := Handle(cfg.codec, k.writer, disk, numFiles, p.bytes, out);
            HandledAs(h, disk, numFiles, p, Kept(k.writer, p, out), cfg.Name(p.file), cfg.Content(p.file))
  {
    var name, content := cfg.Name(p.file), cfg.Content(p.file);
    if p.off == 0 {
      HandleFirst(cfg.codec, k.writer, disk, numFiles, p, out, name, content);
    } else {
      HandleNext(cfg.codec, k.writer, disk, numFiles, p, out, name, content);
    }
  }

  /** A first block; `to` is how far the file is stored. */
  lemma HandleFirst(c: Codec, writer: Writer, disk: Disk, numFiles: int, p: Packet, out: Output,
                    name: seq<Byte>, content: seq<Byte>)
    requires BlockOf(c, p, content) && p.off == 0 && NameIn(p.bytes) == name
    ensures var h := Handle(c, writer, disk, numFiles, p.bytes, out);
            HandledAs(h, disk, numFiles, p, Kept(writer, p, out), name, content)
  {
    if out.opens {
      assert content[..0] == [];
      WriteRange(disk[name := []], numFiles, p.bytes, name, content, 0, p.n, out.limit);
    }
  }

  /** A later block, for the writer its stream has. */
  lemma HandleNext(c: Codec, writer: Writer, disk: Disk, numFiles: int, p: Packet, out: Output,
                   name: seq<Byte>, content: seq<Byte>)
    requires BlockOf(c, p, content) && p.off > 0 && writer.Writer? && writer.name == name
    requires !writer.broken ==> name in disk && disk[name] == content[..p.off]
    ensures var h := Handle(c, writer, disk, numFiles, p.bytes, out);
            HandledAs(h, disk, numFiles, p, Kept(writer, p, out), name, content)
  {
    if !writer.broken {
      WriteRange(disk, numFiles, p.bytes, name, content, p.off, p.n, out.limit);
    }
  }

  /**
   When an assertion of the receiver fires: on a message too short to hold what it announces,
   on content without a writer or without content, and on a stored block of an eleventh bar.
   */
  lemma FaultIff(c: Codec, w: Writer, disk: Disk, numFiles: int, b: seq<Byte>, out: Output)
    ensures Handle(c, w, disk, numFiles, b, out).fault <==>
              || b == []
              || (b[0] % 2 == 1 && |b| < 361)
              || (b[0] % 2 == 1 && out.opens && |b| == 361)
              || (b[0] % 2 == 0 && (w.NoWriter? || |b| == 1))
              || (&& (if b[0] % 2 == 1 then out.opens else !w.broken)
                  && Decode(c, b) != [] && !(out.limit.Some? && out.limit.value < |Decode(c, b)|)
                  && b[0] / 16 >= 10)
    ensures var h := Handle(c, w, disk, numFiles, b, out);
            h.fault ==> !h.finished && h.numFiles == numFiles
  {
  }

  // ------------------------------------------------------------------ what is stored

  lemma NamesApart(cfg: Config, f: nat, g: nat)
    requires GoodConfig(cfg) && f < |cfg.files| && g < |cfg.files| && f != g
    ensures cfg.Name(f) != cfg.Name(g)
  {
    if f < g {
      assert cfg.Name(f) != cfg.Name(g);
    } else {
      assert cfg.Name(g) != cfg.Name(f);
    }
  }

  /** Extending one file leaves the other files of the stream as they were. */
  lemma WriteKeepsOthers(cfg: Config, begun: set<nat>, whole: set<nat>, disk: Disk, f: nat, m: nat)
    requires GoodConfig(cfg) && StartedOk(cfg, begun, disk) && CompleteOk(cfg, whole, begun, disk)
    requires f < |cfg.files| && m <= cfg.Size(f) && f !in whole
    ensures var d := disk[cfg.Name(f) := cfg.Content(f)[..m]];
            StartedOk(cfg, begun + {f}, d) && CompleteOk(cfg, whole, begun + {f}, d)
  {
    var d := disk[cfg.Name(f) := cfg.Content(f)[..m]];
    forall g | g in begun && g != f
      ensures cfg.Name(g) in d && d[cfg.Name(g)] == disk[cfg.Name(g)]
    {
      NamesApart(cfg, g, f);
    }
  }

  lemma WholePrefix(s: seq<Byte>, m: nat)
    requires m == |s|
    ensures s[..m] == s
  {
  }

  /** A file that is being continued is not finished. */
  lemma NotCompleteYet(cfg: Config, pr: Progress, k: Sink, p: Packet, disk: Disk)
    requires ProgressOk(cfg, pr, k, disk) && Continues(pr, p) && pr.complete <= pr.started
    ensures p.file !in pr.complete
    ensures p.off > 0 ==> p.file in pr.started && k.writer.Writer? && (p.file in k.failed <==> k.writer.broken)
    ensures p.off == 0 ==> p.file !in k.failed && p.file !in k.begun
  {
  }

  /** The block left the disk alone: its file has failed, and nothing else changes. */
  lemma UntouchedKeepsProgress(cfg: Config, pr: Progress, k: Sink, disk: Disk, p: Packet, next: Sink)
    requires ProgressOk(cfg, pr, k, disk) && p.file !in pr.complete
    requires p.file < |cfg.files| && p.n > 0 && p.off + p.n <= cfg.Size(p.file)
    requires p.file in next.failed && next == Sink(Writer(cfg.Name(p.file), true), k.begun, k.failed + {p.file})
    ensures ProgressOk(cfg, After(cfg, pr, p), next, disk)
  {
    assert (pr.complete + {p.file}) - next.failed <= pr.complete - k.failed;
  }

  /** The block was stored up to `m`: in part, then its file has failed, or in full. */
  lemma StoredKeepsProgress(cfg: Config, pr: Progress, k: Sink, d: Disk, p: Packet, next: Sink)
    requires SetsOk(pr, k) && p.file !in pr.complete && p.file !in k.failed
    requires p.file < |cfg.files| && p.n > 0 && p.off + p.n <= cfg.Size(p.file)
    requires StartedOk(cfg, k.begun + {p.file}, d)
    requires CompleteOk(cfg, pr.complete - k.failed, k.begun + {p.file}, d)
    requires next.begun == k.begun + {p.file}
    requires if p.file in next.failed then next.failed == k.failed + {p.file}
             else next.failed == k.failed && d[cfg.Name(p.file)] == cfg.Content(p.file)[..p.off + p.n]
    requires p.off + p.n < cfg.Size(p.file) ==> next.writer == Writer(cfg.Name(p.file), p.file in next.failed)
    ensures ProgressOk(cfg, After(cfg, pr, p), next, d)
  {
    var f, m, after := p.file, p.off + p.n, After(cfg, pr, p);
    assert SetsOk(after, next);
    var full := m == cfg.Size(f) && f !in next.failed;
    if full {
      WholePrefix(cfg.Content(f), m);
    }
    WholeFile(cfg, pr.complete - k.failed, next.begun, d, f, full);
    WholeSet(pr.complete, k.failed, next.failed, f, m == cfg.Size(f));
  }

  /** The files stored in full after one more block. */
  lemma WholeSet(complete: set<nat>, failed: set<nat>, next: set<nat>, f: nat, last: bool)
    requires f !in complete && (next == failed || next == failed + {f}) && f !in failed
    ensures (if last then complete + {f} else complete) - next
            == if last && f !in next then (complete - failed) + {f} else complete - failed
  {
  }

  lemma WholeFile(cfg: Config, whole: set<nat>, begun: set<nat>, d: Disk, f: nat, full: bool)
    requires StartedOk(cfg, begun, d) && CompleteOk(cfg, whole, begun, d) && f in begun
    requires full ==> d[cfg.Name(f)] == cfg.Content(f)
    ensures CompleteOk(cfg, if full then whole + {f} else whole, begun, d)
  {
  }

  /** Whatever the file system does with a block, what the stream relies on is kept. */
  lemma DeliveryKeepsProgress(cfg: Config, pr: Progress, k: Sink, disk: Disk, p: Packet, out: Output)
    requires GoodConfig(cfg) && ProgressOk(cfg, pr, k, disk) && pr.complete <= pr.started
    requires p.file < |cfg.files| && p.n > 0 && p.off + p.n <= cfg.Size(p.file) && Continues(pr, p)
    ensures var kept := Kept(k.writer, p, out);
            var w := WriterAfter(cfg.Name(p.file), kept == p.off + p.n, p.off + p.n == cfg.Size(p.file));
            ProgressOk(cfg, After(cfg, pr, p), SinkAfter(k, w, p, out),
                       DiskAfter(disk, cfg.Name(p.file), cfg.Content(p.file), kept))
    ensures p.file !in pr.complete
  {
    var kept := Kept(k.writer, p, out);
    var w := WriterAfter(cfg.Name(p.file), kept == p.off + p.n, p.off + p.n == cfg.Size(p.file));
    var next := SinkAfter(k, w, p, out);
    NotCompleteYet(cfg, pr, k, p, disk);
    if kept < 0 {
      UntouchedKeepsProgress(cfg, pr, k, disk, p, next);
    } else {
      WriteKeepsOthers(cfg, k.begun, pr.complete - k.failed, disk, p.file, kept);
      assert next.begun == k.begun + {p.file};
      StoredKeepsProgress(cfg, pr, k, DiskAfter(disk, cfg.Name(p.file), cfg.Content(p.file), kept), p, next);
    }
  }

  /** Writing a file of another stream changes nothing this stream relies on. */
  lemma OtherDiskKept(cfg: Config, j: nat, st: Stream, disk: Disk, taken: map<nat, nat>, f: nat, v: seq<Byte>)
    requires GoodConfig(cfg) && DiskOk(cfg, st, disk) && OwnOk(j, st, taken)
    requires f < |cfg.files| && f in taken && taken[f] != j
    ensures DiskOk(cfg, st, disk[cfg.Name(f) := v])
  {
    forall g | g in st.sink.begun
      ensures cfg.Name(g) != cfg.Name(f)
    {
      NamesApart(cfg, f, g);
    }
  }
}
