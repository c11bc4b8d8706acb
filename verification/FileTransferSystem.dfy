/**
 File transfer over parallel streams as a step system: sending threads that take
 files from one queue, one ordered channel per stream, and the receiver that
 rebuilds the files and counts them down. A step that is not enabled leaves the
 system as it is, so a run is any sequence of steps.
 */
module FileTransferSystem {
  import opened Bytes
  import opened Options
  import opened FileNames
  import opened FileBlocks

  /** What does not change during a transfer. */
  datatype Config = Config(codec: Codec, compression: bool, files: seq<File>) {
    function Content(f: nat): seq<Byte>
      requires f < |files|
    {
      files[f].content
    }

    function Size(f: nat): nat
      requires f < |files|
    {
      |files[f].content|
    }

    /** The name the receiver stores file `f` under. */
    function Name(f: nat): seq<Byte>
      requires f < |files|
    {
      Transferred(files[f].name)
    }
  }

  // ------------------------------------------------------------- the sending side

  /** Where a sending thread is; `f` is the file at hand and `sent` its `sent_bytes`. */
  datatype Phase =
    | AtOuter
    | AtDequeue
    | AtInner(f: nat, sent: nat, eof: bool)
    | Filling(f: nat, sent: nat)
    | Sending(f: nat, sent: nat, n: nat, eof: bool, bytes: seq<Byte>, refused: bool)
    | Stopped

  /**
   One sending thread. `lost` and `dropped` record the past: whether a block was
   abandoned, and the files that were given up.
   */
  datatype Thread = Thread(phase: Phase, err: bool, connected: bool, lost: bool, dropped: set<nat>)

  /** A block in a channel, with the file range it was built from. */
  datatype Packet = Packet(bytes: seq<Byte>, file: nat, off: nat, n: nat)

  datatype ThreadStep =
    | CheckOuter
    | CheckInner(bad: bool)
    | Fill(ideal: int)
    | Refuse
    | Abandon
    | Fail
    | Disconnect

  predicate Active(t: Thread, done: bool) {
    t.connected && !done
  }

  /** Leaving the inner loop; the file is given up unless it was read to its end and sent. */
  function LeaveInner(t: Thread): Thread
    requires t.phase.AtInner?
  {
    t.(phase := AtOuter,
       dropped := if t.phase.eof && !t.lost then t.dropped else t.dropped + {t.phase.f})
  }

  /** One round of reading: `fin` or end of file follow from how much was left. */
  function FillBlock(cfg: Config, i: nat, t: Thread, ideal: int): Thread
    requires t.phase.Filling? && t.phase.f < |cfg.files| && t.phase.sent <= cfg.Size(t.phase.f)
  {
    var f, sent := t.phase.f, t.phase.sent;
    var want := ReadLength(ideal, sent, cfg.compression);
    var left := cfg.Size(f) - sent;
    if want <= 0 then t
    else if left == 0 then t.(phase := AtInner(f, sent, true))
    else
      var n := if want <= left then want else left;
      t.(phase := Sending(f, sent, n, left < want,
                          BuildBlock(cfg.codec, cfg.compression, i, cfg.files[f], sent, n), false))
  }

  function ApplyThread(cfg: Config, i: nat, done: bool, t: Thread, step: ThreadStep): Thread {
    match step
    case CheckOuter =>
      if !t.phase.AtOuter? then t
      else if done || t.err then t.(phase := Stopped)
      else t.(phase := AtDequeue)
    case CheckInner(bad) =>
      if !t.phase.AtInner? then t
      else if t.phase.eof || !Active(t, done) || bad || t.err then LeaveInner(t)
      else t.(phase := Filling(t.phase.f, t.phase.sent))
    case Fill(ideal) =>
      if t.phase.Filling? && t.phase.f < |cfg.files| && t.phase.sent <= cfg.Size(t.phase.f)
      then FillBlock(cfg, i, t, ideal) else t
    case Refuse =>
      if t.phase.Sending? then t.(phase := t.phase.(refused := true)) else t
    case Abandon =>
      if t.phase.Sending? && t.phase.refused && (!Active(t, done) || t.err)
      then t.(phase := AtInner(t.phase.f, t.phase.sent + t.phase.n, t.phase.eof), lost := true)
      else t
    case Fail => t.(err := true)
    case Disconnect => t.(connected := false)
  }

  // ----------------------------------------------------------- the receiving side

  type Disk = map<seq<Byte>, seq<Byte>>

  /** What the file system does for one block: whether an output opens, and how much it takes if not all. */
  datatype Output = Output(opens: bool, limit: Option<nat>)

  const Full := Output(true, None)

  /** A stream's output file; a broken one did not open or failed a write, and stores nothing more. */
  datatype Writer = NoWriter | Writer(name: seq<Byte>, broken: bool)

  predicate IsBroken(w: Writer) {
    w.Writer? && w.broken
  }

  datatype Handled = Handled(writer: Writer, disk: Disk, numFiles: int, fault: bool, finished: bool)

  function Stored(disk: Disk, name: seq<Byte>): seq<Byte> {
    if name in disk then disk[name] else []
  }

  /** The countdown at the end of a file. */
  function CountDown(numFiles: int): int {
    var n := if numFiles > 0 then numFiles - 1 else numFiles;
    if n <= 0 then 0 else n
  }

  /** `HandleReceivedFileData`; `fault` is an assertion of the source that would fire. */
  function Handle(c: Codec, writer: Writer, disk: Disk, numFiles: int, b: seq<Byte>, out: Output): Handled {
    if b == [] || (Syn(b) && |b| < HDR + META) then Handled(writer, disk, numFiles, true, false)
    else if Syn(b) && !out.opens then Handled(Writer(NameIn(b), true), disk, numFiles, false, false)
    else
      var w := if Syn(b) then Writer(NameIn(b), false) else writer;
      var d := if Syn(b) then disk[NameIn(b) := []] else disk;
      if w.NoWriter? || |b| <= ContentAt(b) then Handled(w, d, numFiles, true, false)
      else WriteData(w, d, numFiles, b, Decode(c, b), out.limit)
  }

  /** The part behind the assertions: write, and count down at the end of a file. */
  function WriteData(w: Writer, d: Disk, numFiles: int, b: seq<Byte>, data: seq<Byte>, limit: Option<nat>): Handled
    requires w.Writer? && b != []
  {
    if data == [] || w.broken then Handled(w, d, numFiles, false, false)
    else if limit.Some? && limit.value < |data| then
      Handled(w.(broken := true), d[w.name := Stored(d, w.name) + data[..limit.value]], numFiles, false, false)
    else
      var d' := d[w.name := Stored(d, w.name) + data];
      if HeaderOf(b[0]).fileSeq >= MAX_BARS then Handled(w, d', numFiles, true, false)
      else if Fin(b) then Handled(NoWriter, d', CountDown(numFiles), false, true)
      else Handled(w, d', numFiles, false, false)
  }

  // ---------------------------------------------------------------------- history

  datatype Cursor = NoFile | At(file: nat, off: nat)

  /** What a receiver has seen of a stream: its position, files begun, files completed. */
  datatype Progress = Progress(cur: Cursor, started: set<nat>, complete: set<nat>)

  function After(cfg: Config, pr: Progress, p: Packet): Progress
    requires p.file < |cfg.files|
  {
    if p.off + p.n == cfg.Size(p.file)
    then Progress(NoFile, pr.started + {p.file}, pr.complete + {p.file})
    else Progress(At(p.file, p.off + p.n), pr.started + {p.file}, pr.complete)
  }

  // ------------------------------------------------------------------- the system

  /** The receiving end of a stream: its writer, the files it opened, and those its file system failed. */
  datatype Sink = Sink(writer: Writer, begun: set<nat>, failed: set<nat>)

  function SinkAfter(k: Sink, w: Writer, p: Packet, out: Output): Sink {
    Sink(w, if p.off == 0 && out.opens then k.begun + {p.file} else k.begun,
         if IsBroken(w) then k.failed + {p.file} else k.failed)
  }

  datatype Stream = Stream(thread: Thread, chan: seq<Packet>, sink: Sink, progress: Progress)

  datatype System = System(
    queue: seq<nat>,
    streams: seq<Stream>,
    done: bool,
    disk: Disk,
    numFiles: int,
    fault: bool,
    taken: map<nat, nat>,
    finished: set<nat>)

  datatype Step =
    | Work(i: nat, step: ThreadStep)
    | Dequeue(i: nat, opens: bool)
    | Accept(i: nat)
    | Deliver(i: nat, out: Output)
    | Finish

  const FreshStream :=
    Stream(Thread(AtOuter, false, true, false, {}), [], Sink(NoWriter, {}, {}), Progress(NoFile, {}, {}))

  /** `announced` is the file count in the transfer request; the queue holds the files in order. */
  function Initial(cfg: Config, numStreams: nat, announced: nat, disk: Disk): System {
    System(seq(|cfg.files|, i requires 0 <= i => i), seq(numStreams, _ => FreshStream),
           false, disk, announced, false, map[], {})
  }

  function ApplyWork(cfg: Config, s: System, i: nat, step: ThreadStep): System
    requires i < |s.streams|
  {
    var st := s.streams[i];
    s.(streams := s.streams[i := st.(thread := ApplyThread(cfg, i, s.done, st.thread, step))])
  }

  /** Take one file; if it cannot be opened the thread goes back for the next one. */
  function Took(st: Stream, queue: seq<nat>, opens: bool): Stream {
    var t := st.thread;
    st.(thread := if queue == [] then t.(phase := Stopped)
                  else if opens then t.(phase := AtInner(queue[0], 0, false))
                  else t.(phase := AtOuter, dropped := t.dropped + {queue[0]}))
  }

  function ApplyDequeue(s: System, i: nat, opens: bool): System
    requires i < |s.streams|
  {
    if !s.streams[i].thread.phase.AtDequeue? then s
    else
      var after := s.streams[i := Took(s.streams[i], s.queue, opens)];
      if s.queue == [] then s.(streams := after)
      else s.(queue := s.queue[1..], taken := s.taken[s.queue[0] := i], streams := after)
  }

  /** The transport takes the block: it is on its way and the loop goes on. */
  function Accepted(st: Stream): Stream
    requires st.thread.phase.Sending?
  {
    var ph := st.thread.phase;
    st.(thread := st.thread.(phase := AtInner(ph.f, ph.sent + ph.n, ph.eof)),
        chan := st.chan + [Packet(ph.bytes, ph.f, ph.sent, ph.n)])
  }

  function ApplyAccept(s: System, i: nat): System
    requires i < |s.streams|
  {
    if !s.streams[i].thread.phase.Sending? then s else s.(streams := s.streams[i := Accepted(s.streams[i])])
  }

  /** A stream whose first block in the channel has been handled. */
  function Handed(cfg: Config, st: Stream, w: Writer, out: Output): Stream
    requires st.chan != [] && st.chan[0].file < |cfg.files|
  {
    Stream(st.thread, st.chan[1..], SinkAfter(st.sink, w, st.chan[0], out), After(cfg, st.progress, st.chan[0]))
  }

  function ApplyDeliver(cfg: Config, s: System, i: nat, out: Output): System
    requires i < |s.streams|
  {
    var st := s.streams[i];
    if st.chan == [] || st.chan[0].file >= |cfg.files| then s
    else
      var p := st.chan[0];
      var h := Handle(cfg.codec, st.sink.writer, s.disk, s.numFiles, p.bytes, out);
      s.(streams := s.streams[i := Handed(cfg, st, h.writer, out)],
         disk := h.disk, numFiles := h.numFiles, fault := s.fault || h.fault,
         finished := if h.finished then s.finished + {p.file} else s.finished)
  }

  function Apply(cfg: Config, s: System, step: Step): System {
    match step
    case Work(i, w) => if i < |s.streams| then ApplyWork(cfg, s, i, w) else s
    case Dequeue(i, opens) => if i < |s.streams| then ApplyDequeue(s, i, opens) else s
    case Accept(i) => if i < |s.streams| then ApplyAccept(s, i) else s
    case Deliver(i, out) => if i < |s.streams| then ApplyDeliver(cfg, s, i, out) else s
    case Finish => s.(done := true)
  }

  function Run(cfg: Config, s: System, steps: seq<Step>): System {
    if steps == [] then s
    else Apply(cfg, Run(cfg, s, steps[..|steps| - 1]), steps[|steps| - 1])
  }
}
