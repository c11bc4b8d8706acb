/**
 The invariant of a whole file transfer and the theorems over every run: any
 number of streams, any interleaving, any ideal lengths, any failures.
 */
module FileTransferTheorems {
  import opened Bytes
  import opened Options
  import opened FileNames
  import opened FileTransferSystem
  import opened FileTransferProofs

  // ---------------------------------------------------------------- the invariant

  ghost predicate StreamInv(cfg: Config, s: System, i: nat)
    requires i < |s.streams|
  {
    && StreamOk(cfg, i, s.streams[i], s.done)
    && OwnOk(i, s.streams[i], s.taken)
    && DiskOk(cfg, s.streams[i], s.disk)
  }

  ghost predicate StreamsInv(cfg: Config, s: System) {
    forall i: nat :: i < |s.streams| ==> StreamInv(cfg, s, i)
  }

  /** Every file is either still queued, once, or taken by one stream. */
  ghost predicate QueueInv(cfg: Config, s: System) {
    QueueOk(|cfg.files|, |s.streams|, s.queue, s.taken)
  }

  ghost predicate QueueOk(numFiles: nat, numStreams: nat, queue: seq<nat>, taken: map<nat, nat>) {
    && (forall k :: 0 <= k < |queue| ==> queue[k] < numFiles && queue[k] !in taken)
    && (forall k, l :: 0 <= k < l < |queue| ==> queue[k] != queue[l])
    && (forall f: nat :: f < numFiles ==> f in queue || f in taken)
    && (forall f :: f in taken ==> f < numFiles && taken[f] < numStreams)
  }

  /** The files that arrived to their last byte and were stored in full. */
  ghost function Received(st: Stream): set<nat> {
    st.progress.complete - st.sink.failed
  }

  ghost predicate SomeStreamHas(s: System, f: nat) {
    exists i: nat :: i < |s.streams| && f in Received(s.streams[i])
  }

  /** The countdown is short of the announced number by the files completely received. */
  ghost predicate CountInv(cfg: Config, s: System, announced: nat) {
    && s.numFiles == announced - |s.finished|
    && (forall f :: f in s.finished ==>
          f < |cfg.files| && cfg.Size(f) > 0 && SomeStreamHas(s, f))
    && (forall i: nat, f :: i < |s.streams| && f in Received(s.streams[i]) ==> f in s.finished)
  }

  /** What became of a taken file: given up, at hand, empty, or sent to its last byte. */
  ghost predicate Fate(cfg: Config, i: nat, st: Stream, f: nat)
    requires f < |cfg.files|
  {
    || f in st.thread.dropped
    || (HasFile(st.thread.phase) && st.thread.phase.f == f)
    || cfg.Size(f) == 0
    || (ChanOk(cfg, i, st.progress, st.chan) && f in EndOf(cfg, i, st.progress, st.chan).complete)
  }

  ghost predicate FateInv(cfg: Config, s: System)
    requires QueueInv(cfg, s)
  {
    forall f :: f in s.taken ==> Fate(cfg, s.taken[f], s.streams[s.taken[f]], f)
  }

  /** A thread that stopped without a failure has found the queue empty. */
  ghost predicate StoppedInv(s: System) {
    forall i: nat :: i < |s.streams| ==>
      var t := s.streams[i].thread;
      t.phase.Stopped? ==> s.queue == [] || t.err || s.done
  }

  ghost predicate Inv(cfg: Config, s: System, announced: nat) {
    && StreamsInv(cfg, s)
    && StoppedInv(s)
    && QueueInv(cfg, s)
    && CountInv(cfg, s, announced)
    && FateInv(cfg, s)
    && !s.fault
  }

  lemma InitialInv(cfg: Config, numStreams: nat, announced: nat, disk: Disk)
    ensures Inv(cfg, Initial(cfg, numStreams, announced, disk), announced)
  {
    var s := Initial(cfg, numStreams, announced, disk);
    forall f: nat | f < |cfg.files|
      ensures f in s.queue
    {
      assert s.queue[f] == f;
    }
  }

  // ------------------------------------------------------------- steps of a thread

  lemma ThreadStepKeepsFile(cfg: Config, i: nat, done: bool, t: Thread, step: ThreadStep)
    ensures var u := ApplyThread(cfg, i, done, t, step);
            && t.dropped <= u.dropped
            && (HasFile(u.phase) ==> HasFile(t.phase) && u.phase.f == t.phase.f)
            && (HasFile(t.phase) && !HasFile(u.phase) ==>
                  t.phase.f in u.dropped || (t.phase.AtInner? && t.phase.eof && !t.lost))
  {
  }

  lemma WorkKeepsFate(cfg: Config, i: nat, st: Stream, done: bool, step: ThreadStep, f: nat)
    requires f < |cfg.files| && StreamOk(cfg, i, st, done) && Fate(cfg, i, st, f)
    ensures Fate(cfg, i, st.(thread := ApplyThread(cfg, i, done, st.thread, step)), f)
  {
    ThreadStepKeepsFile(cfg, i, done, st.thread, step);
  }

  lemma WorkKeepsStreams(cfg: Config, s: System, i: nat, step: ThreadStep)
    requires StreamsInv(cfg, s) && i < |s.streams|
    ensures StreamsInv(cfg, ApplyWork(cfg, s, i, step))
  {
    var st, u := s.streams[i], ApplyWork(cfg, s, i, step);
    assert StreamInv(cfg, s, i);
    ThreadStepKeeps(cfg, i, st.thread, EndOf(cfg, i, st.progress, st.chan), s.done, step);
    ThreadStepKeepsFile(cfg, i, s.done, st.thread, step);
    forall j: nat | j < |u.streams|
      ensures StreamInv(cfg, u, j)
    {
      assert StreamInv(cfg, s, j);
    }
  }

  lemma WorkKeepsFates(cfg: Config, s: System, i: nat, step: ThreadStep)
    requires StreamsInv(cfg, s) && QueueInv(cfg, s) && FateInv(cfg, s) && i < |s.streams|
    ensures QueueInv(cfg, ApplyWork(cfg, s, i, step)) && FateInv(cfg, ApplyWork(cfg, s, i, step))
  {
    var st, u := s.streams[i], ApplyWork(cfg, s, i, step);
    forall f | f in u.taken
      ensures Fate(cfg, u.taken[f], u.streams[u.taken[f]], f)
    {
      assert Fate(cfg, s.taken[f], s.streams[s.taken[f]], f);
      if u.taken[f] == i {
        assert StreamInv(cfg, s, i);
        WorkKeepsFate(cfg, i, st, s.done, step, f);
      }
    }
  }

  lemma StoppedStep(cfg: Config, s: System, step: Step)
    requires StoppedInv(s)
    ensures StoppedInv(Apply(cfg, s, step))
  {
    if step.Work? && step.i < |s.streams| {
      StoppedWork(cfg, step.i, s.done, s.streams[step.i].thread, step.step);
    }
  }

  lemma StoppedWork(cfg: Config, i: nat, done: bool, t: Thread, step: ThreadStep)
    ensures var u := ApplyThread(cfg, i, done, t, step);
            && (u.phase.Stopped? ==> t.phase.Stopped? || done || u.err)
            && (t.err ==> u.err)
  {
  }

  lemma WorkKeeps(cfg: Config, s: System, announced: nat, i: nat, step: ThreadStep)
    requires Inv(cfg, s, announced) && i < |s.streams|
    ensures Inv(cfg, ApplyWork(cfg, s, i, step), announced)
  {
    StoppedStep(cfg, s, Work(i, step));
    WorkKeepsStreams(cfg, s, i, step);
    WorkKeepsFates(cfg, s, i, step);
    CountNoFile(cfg, s, ApplyWork(cfg, s, i, step), announced, i);
  }

  // ------------------------------------------------------------- taking from the queue

  /** A queued file is unknown to every stream. */
  lemma QueuedIsFresh(cfg: Config, s: System, i: nat, f: nat)
    requires StreamsInv(cfg, s) && i < |s.streams| && f !in s.taken
    ensures StreamInv(cfg, s, i)
    ensures f !in EndOf(cfg, i, s.streams[i].progress, s.streams[i].chan).started
  {
    assert StreamInv(cfg, s, i);
    var st := s.streams[i];
    EndGrows(cfg, i, st.progress, st.chan);
  }

  /** The stream that takes a fresh file, or finds the queue empty. */
  lemma TookOk(cfg: Config, i: nat, st: Stream, done: bool, queue: seq<nat>, taken: map<nat, nat>, opens: bool)
    requires StreamOk(cfg, i, st, done) && OwnOk(i, st, taken) && st.thread.phase.AtDequeue?
    requires queue != [] ==>
               && queue[0] < |cfg.files| && queue[0] in taken && taken[queue[0]] == i
               && queue[0] !in EndOf(cfg, i, st.progress, st.chan).started
    ensures StreamOk(cfg, i, Took(st, queue, opens), done) && OwnOk(i, Took(st, queue, opens), taken)
  {
  }

  lemma OwnGrows(j: nat, st: Stream, taken: map<nat, nat>, f: nat, i: nat)
    requires OwnOk(j, st, taken) && f !in taken
    ensures OwnOk(j, st, taken[f := i])
  {
  }

  lemma DequeueKeepsStreams(cfg: Config, s: System, i: nat, opens: bool)
    requires StreamsInv(cfg, s) && QueueInv(cfg, s) && i < |s.streams|
    ensures StreamsInv(cfg, ApplyDequeue(s, i, opens))
  {
    var u, st := ApplyDequeue(s, i, opens), s.streams[i];
    if st.thread.phase.AtDequeue? {
      forall j: nat | j < |u.streams|
        ensures StreamInv(cfg, u, j)
      {
        assert StreamInv(cfg, s, j);
        if s.queue != [] {
          OwnGrows(j, s.streams[j], s.taken, s.queue[0], i);
        }
        if j == i {
          if s.queue != [] {
            QueuedIsFresh(cfg, s, i, s.queue[0]);
          }
          TookOk(cfg, i, st, s.done, s.queue, u.taken, opens);
        }
      }
    }
  }

  lemma TakingKeepsQueue(numFiles: nat, numStreams: nat, queue: seq<nat>, taken: map<nat, nat>, i: nat)
    requires QueueOk(numFiles, numStreams, queue, taken) && queue != [] && i < numStreams
    ensures QueueOk(numFiles, numStreams, queue[1..], taken[queue[0] := i])
  {
    assert queue == [queue[0]] + queue[1..];
  }

  lemma DequeueKeepsQueue(cfg: Config, s: System, i: nat, opens: bool)
    requires QueueInv(cfg, s) && i < |s.streams|
    ensures QueueInv(cfg, ApplyDequeue(s, i, opens))
  {
    if s.queue != [] {
      TakingKeepsQueue(|cfg.files|, |s.streams|, s.queue, s.taken, i);
    }
  }

  lemma TookFate(cfg: Config, i: nat, st: Stream, queue: seq<nat>, opens: bool, f: nat)
    requires f < |cfg.files| && st.thread.phase.AtDequeue?
    requires Fate(cfg, i, st, f) || (queue != [] && f == queue[0])
    ensures Fate(cfg, i, Took(st, queue, opens), f)
  {
  }

  lemma DequeueKeepsFates(cfg: Config, s: System, i: nat, opens: bool)
    requires QueueInv(cfg, s) && FateInv(cfg, s) && i < |s.streams|
    requires QueueInv(cfg, ApplyDequeue(s, i, opens))
    ensures FateInv(cfg, ApplyDequeue(s, i, opens))
  {
    var u := ApplyDequeue(s, i, opens);
    if s.streams[i].thread.phase.AtDequeue? {
      forall f | f in u.taken
        ensures Fate(cfg, u.taken[f], u.streams[u.taken[f]], f)
      {
        assert f in s.taken ==> Fate(cfg, s.taken[f], s.streams[s.taken[f]], f);
        if u.taken[f] == i {
          TookFate(cfg, i, s.streams[i], s.queue, opens, f);
        }
      }
    }
  }

  lemma DequeueKeepsCount(cfg: Config, s: System, announced: nat, i: nat, opens: bool)
    requires CountInv(cfg, s, announced) && i < |s.streams|
    ensures CountInv(cfg, ApplyDequeue(s, i, opens), announced)
  {
    CountNoFile(cfg, s, ApplyDequeue(s, i, opens), announced, i);
  }

  lemma DequeueKeeps(cfg: Config, s: System, announced: nat, i: nat, opens: bool)
    requires Inv(cfg, s, announced) && i < |s.streams|
    ensures Inv(cfg, ApplyDequeue(s, i, opens), announced)
  {
    StoppedStep(cfg, s, Dequeue(i, opens));
    DequeueKeepsStreams(cfg, s, i, opens);
    DequeueKeepsQueue(cfg, s, i, opens);
    DequeueKeepsFates(cfg, s, i, opens);
    DequeueKeepsCount(cfg, s, announced, i, opens);
  }

  // ------------------------------------------------------------------- sending

  lemma AcceptedPosition(cfg: Config, i: nat, st: Stream, done: bool)
    requires StreamOk(cfg, i, st, done) && st.thread.phase.Sending?
    ensures StreamOk(cfg, i, Accepted(st), done)
    ensures EndOf(cfg, i, st.progress, st.chan).complete
            <= EndOf(cfg, i, Accepted(st).progress, Accepted(st).chan).complete
  {
    var ph := st.thread.phase;
    ChanAppend(cfg, i, st.progress, st.chan, Packet(ph.bytes, ph.f, ph.sent, ph.n));
  }

  lemma AcceptedOwn(i: nat, st: Stream, taken: map<nat, nat>)
    requires OwnOk(i, st, taken) && st.thread.phase.Sending?
    ensures OwnOk(i, Accepted(st), taken)
  {
  }

  lemma AcceptedFate(cfg: Config, i: nat, st: Stream, done: bool, f: nat)
    requires StreamOk(cfg, i, st, done) && st.thread.phase.Sending?
    requires f < |cfg.files| && Fate(cfg, i, st, f)
    ensures Fate(cfg, i, Accepted(st), f)
  {
    AcceptedPosition(cfg, i, st, done);
  }

  lemma AcceptKeepsStream(cfg: Config, s: System, i: nat)
    requires StreamsInv(cfg, s) && i < |s.streams| && s.streams[i].thread.phase.Sending?
    ensures StreamsInv(cfg, ApplyAccept(s, i))
  {
    var u := ApplyAccept(s, i);
    assert StreamInv(cfg, s, i);
    AcceptedPosition(cfg, i, s.streams[i], s.done);
    AcceptedOwn(i, s.streams[i], s.taken);
    forall j: nat | j < |u.streams| && j != i
      ensures StreamInv(cfg, u, j)
    {
      assert StreamInv(cfg, s, j);
    }
    assert StreamInv(cfg, u, i);
  }

  lemma AcceptKeepsFates(cfg: Config, s: System, i: nat)
    requires StreamsInv(cfg, s) && QueueInv(cfg, s) && FateInv(cfg, s)
    requires i < |s.streams| && s.streams[i].thread.phase.Sending?
    ensures QueueInv(cfg, ApplyAccept(s, i)) && FateInv(cfg, ApplyAccept(s, i))
  {
    var u := ApplyAccept(s, i);
    assert StreamInv(cfg, s, i);
    forall f | f in u.taken
      ensures Fate(cfg, u.taken[f], u.streams[u.taken[f]], f)
    {
      assert Fate(cfg, s.taken[f], s.streams[s.taken[f]], f);
      if s.taken[f] == i {
        AcceptedFate(cfg, i, s.streams[i], s.done, f);
      }
    }
  }

  lemma AcceptKeepsCount(cfg: Config, s: System, announced: nat, i: nat)
    requires CountInv(cfg, s, announced) && i < |s.streams|
    ensures CountInv(cfg, ApplyAccept(s, i), announced)
  {
    CountNoFile(cfg, s, ApplyAccept(s, i), announced, i);
  }

  lemma AcceptKeeps(cfg: Config, s: System, announced: nat, i: nat)
    requires Inv(cfg, s, announced) && i < |s.streams|
    ensures Inv(cfg, ApplyAccept(s, i), announced)
  {
    StoppedStep(cfg, s, Accept(i));
    var u := ApplyAccept(s, i);
    if s.streams[i].thread.phase.Sending? {
      AcceptKeepsStream(cfg, s, i);
      assert StreamInv(cfg, s, i) && StreamInv(cfg, u, i);
      AcceptKeepsCount(cfg, s, announced, i);
      AcceptKeepsFates(cfg, s, i);
    }
  }

  // ------------------------------------------------------------------ delivering

  /** What one delivery does to the counters and to the history of its stream. */
  ghost predicate Delivered(cfg: Config, s: System, u: System, i: nat, f: nat, counted: bool) {
    && i < |s.streams| == |u.streams| && f < |cfg.files| && cfg.Size(f) > 0
    && (forall j: nat :: j < |s.streams| && j != i ==> u.streams[j] == s.streams[j])
    && Received(u.streams[i]) == (if counted then Received(s.streams[i]) + {f} else Received(s.streams[i]))
    && u.finished == (if counted then s.finished + {f} else s.finished)
    && u.numFiles == (if counted then CountDown(s.numFiles) else s.numFiles)
  }

  /** What a delivery adds to the files received: its file, when the last block was stored in full. */
  lemma ReceivedAfter(cfg: Config, st: Stream, w: Writer, out: Output, counted: bool)
    requires st.chan != [] && st.chan[0].file < |cfg.files| && st.chan[0].file !in st.progress.complete
    requires var p := st.chan[0];
             counted == (!IsBroken(w) && p.off + p.n == cfg.Size(p.file)) && (counted ==> p.file !in st.sink.failed)
    ensures Received(Handed(cfg, st, w, out)) == if counted then Received(st) + {st.chan[0].file} else Received(st)
  {
  }

  lemma DeliverKeepsStreams(cfg: Config, s: System, i: nat, out: Output)
    requires GoodConfig(cfg) && StreamsInv(cfg, s) && i < |s.streams| && s.streams[i].chan != []
    ensures var u := ApplyDeliver(cfg, s, i, out);
            && StreamsInv(cfg, u) && StreamInv(cfg, s, i) && StreamInv(cfg, u, i) && u.fault == s.fault
            && EndOf(cfg, i, u.streams[i].progress, u.streams[i].chan)
               == EndOf(cfg, i, s.streams[i].progress, s.streams[i].chan)
  {
    var u, st := ApplyDeliver(cfg, s, i, out), s.streams[i];
    var p := st.chan[0];
    assert StreamInv(cfg, s, i);
    PacketReads(cfg, i, p);
    HandleOk(cfg, st.progress, st.sink, p, s.disk, s.numFiles, out);
    DeliveryKeepsProgress(cfg, st.progress, st.sink, s.disk, p, out);
    DeliveredOwn(cfg, i, st, s.taken, u.streams[i].sink);
    forall j: nat | j < |u.streams|
      ensures StreamInv(cfg, u, j)
    {
      assert StreamInv(cfg, s, j);
      if j != i && Kept(st.sink.writer, p, out) >= 0 {
        OtherDiskKept(cfg, j, s.streams[j], s.disk, s.taken, p.file,
                      cfg.Content(p.file)[..Kept(st.sink.writer, p, out)]);
      }
    }
  }

  /** On one stream: the block's file is received and counted, or neither. */
  lemma DeliveryCounts(cfg: Config, i: nat, st: Stream, disk: Disk, numFiles: int, out: Output)
    requires GoodConfig(cfg) && ChanOk(cfg, i, st.progress, st.chan) && st.chan != []
    requires DiskOk(cfg, st, disk) && st.progress.complete <= st.progress.started
    ensures var f := st.chan[0].file;
            var h := Handle(cfg.codec, st.sink.writer, disk, numFiles, st.chan[0].bytes, out);
            && f < |cfg.files| && f !in st.progress.complete && cfg.Size(f) > 0
            && Received(Handed(cfg, st, h.writer, out)) == (if h.finished then Received(st) + {f} else Received(st))
            && h.numFiles == (if h.finished then CountDown(numFiles) else numFiles)
  {
    var p := st.chan[0];
    PacketReads(cfg, i, p);
    HandleOk(cfg, st.progress, st.sink, p, disk, numFiles, out);
    NotCompleteYet(cfg, st.progress, st.sink, p, disk);
    var h := Handle(cfg.codec, st.sink.writer, disk, numFiles, p.bytes, out);
    ReceivedAfter(cfg, st, h.writer, out, h.finished);
  }

  lemma DeliverDelivers(cfg: Config, s: System, i: nat, out: Output) returns (counted: bool)
    requires GoodConfig(cfg) && StreamsInv(cfg, s) && i < |s.streams| && s.streams[i].chan != []
    ensures var f := s.streams[i].chan[0].file;
            && Delivered(cfg, s, ApplyDeliver(cfg, s, i, out), i, f, counted)
            && f in s.taken && s.taken[f] == i && f !in s.streams[i].progress.complete
  {
    var st := s.streams[i];
    assert StreamInv(cfg, s, i);
    DeliveryCounts(cfg, i, st, s.disk, s.numFiles, out);
    var h := Handle(cfg.codec, st.sink.writer, s.disk, s.numFiles, st.chan[0].bytes, out);
    counted := h.finished;
  }

  lemma DeliveredOwn(cfg: Config, i: nat, st: Stream, taken: map<nat, nat>, k: Sink)
    requires OwnOk(i, st, taken) && st.chan != [] && st.chan[0].file < |cfg.files|
    ensures OwnOk(i, Stream(st.thread, st.chan[1..], k, After(cfg, st.progress, st.chan[0])), taken)
  {
    assert forall k :: 0 <= k < |st.chan[1..]| ==> st.chan[1..][k] == st.chan[k + 1];
  }

  /** Members below `n` number at most `n`, and exactly `n` only when all are there. */
  lemma {:induction false} BelowSize(x: set<nat>, n: nat)
    requires forall f :: f in x ==> f < n
    ensures |x| <= n
    ensures |x| == n ==> forall f: nat :: f < n ==> f in x
  {
    if n > 0 {
      var y := x - {n - 1};
      BelowSize(y, n - 1);
      if n - 1 in x {
        assert x == y + {n - 1};
      } else {
        assert x == y;
      }
    }
  }

  lemma NotFinishedYet(cfg: Config, s: System, announced: nat, i: nat, f: nat)
    requires StreamsInv(cfg, s) && CountInv(cfg, s, announced)
    requires i < |s.streams| && f in s.taken && s.taken[f] == i && f !in s.streams[i].progress.complete
    ensures f !in s.finished
  {
    forall j: nat | j < |s.streams|
      ensures f !in Received(s.streams[j])
    {
      assert StreamInv(cfg, s, j);
    }
  }

  lemma OneLess(x: set<nat>, f: nat, n: nat, announced: nat, numFiles: int)
    requires (forall g :: g in x ==> g < n) && f < n <= announced && f !in x && numFiles == announced - |x|
    ensures CountDown(numFiles) == announced - |x + {f}|
  {
    BelowSize(x + {f}, n);
  }

  /** The end of a file is counted once, and the count cannot run out early. */
  lemma CountOneFile(cfg: Config, s: System, u: System, announced: nat, i: nat, f: nat)
    requires CountInv(cfg, s, announced) && |cfg.files| <= announced
    requires i < |s.streams| == |u.streams| && f < |cfg.files| && cfg.Size(f) > 0 && f !in s.finished
    requires u.finished == s.finished + {f} && u.numFiles == CountDown(s.numFiles)
    requires Received(u.streams[i]) == Received(s.streams[i]) + {f}
    requires forall j: nat :: j < |s.streams| && j != i ==> Received(u.streams[j]) == Received(s.streams[j])
    ensures CountInv(cfg, u, announced)
  {
    OneLess(s.finished, f, |cfg.files|, announced, s.numFiles);
    forall g | g in u.finished
      ensures SomeStreamHas(u, g)
    {
      if g in s.finished {
        assert SomeStreamHas(s, g);
        var j: nat :| j < |s.streams| && g in Received(s.streams[j]);
        assert g in Received(u.streams[j]);
      } else {
        assert g in Received(u.streams[i]);
      }
    }
  }

  /** Without a completed file the countdown stays as it is. */
  lemma CountNoFile(cfg: Config, s: System, u: System, announced: nat, i: nat)
    requires CountInv(cfg, s, announced) && i < |s.streams| == |u.streams|
    requires u.finished == s.finished && u.numFiles == s.numFiles
    requires forall j: nat :: j < |s.streams| ==> Received(u.streams[j]) == Received(s.streams[j])
    ensures CountInv(cfg, u, announced)
  {
    forall g | g in u.finished
      ensures SomeStreamHas(u, g)
    {
      assert SomeStreamHas(s, g);
      var j: nat :| j < |s.streams| && g in Received(s.streams[j]);
      assert g in Received(u.streams[j]);
    }
  }

  lemma DeliveredKeepsCount(cfg: Config, s: System, u: System, announced: nat, i: nat, f: nat, counted: bool)
    requires CountInv(cfg, s, announced) && |cfg.files| <= announced
    requires Delivered(cfg, s, u, i, f, counted) && f !in s.finished
    ensures CountInv(cfg, u, announced)
  {
    if counted {
      CountOneFile(cfg, s, u, announced, i, f);
    } else {
      CountNoFile(cfg, s, u, announced, i);
    }
  }

  lemma DeliverKeeps(cfg: Config, s: System, announced: nat, i: nat, out: Output)
    requires GoodConfig(cfg) && |cfg.files| <= announced
    requires Inv(cfg, s, announced) && i < |s.streams|
    ensures Inv(cfg, ApplyDeliver(cfg, s, i, out), announced)
  {
    StoppedStep(cfg, s, Deliver(i, out));
    if s.streams[i].chan != [] {
      DeliverKeepsStreams(cfg, s, i, out);
      var f := s.streams[i].chan[0].file;
      var counted := DeliverDelivers(cfg, s, i, out);
      NotFinishedYet(cfg, s, announced, i, f);
      DeliveredKeepsCount(cfg, s, ApplyDeliver(cfg, s, i, out), announced, i, f, counted);
      DeliverKeepsFates(cfg, s, i, out);
    }
  }

  lemma DeliverKeepsFates(cfg: Config, s: System, i: nat, out: Output)
    requires GoodConfig(cfg) && StreamsInv(cfg, s) && QueueInv(cfg, s) && FateInv(cfg, s)
    requires i < |s.streams| && s.streams[i].chan != []
    ensures var u := ApplyDeliver(cfg, s, i, out);
            QueueInv(cfg, u) && FateInv(cfg, u)
  {
    var u := ApplyDeliver(cfg, s, i, out);
    DeliverKeepsStreams(cfg, s, i, out);
    assert StreamInv(cfg, u, i);
    forall f | f in u.taken
      ensures Fate(cfg, u.taken[f], u.streams[u.taken[f]], f)
    {
      assert Fate(cfg, s.taken[f], s.streams[s.taken[f]], f);
    }
  }

  lemma FinishKeeps(cfg: Config, s: System, announced: nat)
    requires Inv(cfg, s, announced)
    ensures Inv(cfg, s.(done := true), announced)
  {
    StoppedStep(cfg, s, Finish);
    var u := s.(done := true);
    forall j: nat | j < |u.streams|
      ensures StreamInv(cfg, u, j)
    {
      assert StreamInv(cfg, s, j);
    }
    CountAndFateKept(cfg, s, u, announced);
  }

  lemma CountAndFateKept(cfg: Config, s: System, u: System, announced: nat)
    requires QueueInv(cfg, s) && CountInv(cfg, s, announced) && FateInv(cfg, s)
    requires u == s.(done := true)
    ensures QueueInv(cfg, u) && CountInv(cfg, u, announced) && FateInv(cfg, u)
  {
    forall f | f in u.taken
      ensures Fate(cfg, u.taken[f], u.streams[u.taken[f]], f)
    {
      assert Fate(cfg, s.taken[f], s.streams[s.taken[f]], f);
    }
  }

  lemma StepKeeps(cfg: Config, s: System, announced: nat, step: Step)
    requires GoodConfig(cfg) && |cfg.files| <= announced
    requires Inv(cfg, s, announced)
    ensures Inv(cfg, Apply(cfg, s, step), announced)
  {
    match step
    case Work(i, w) => if i < |s.streams| { WorkKeeps(cfg, s, announced, i, w); }
    case Dequeue(i, opens) => if i < |s.streams| { DequeueKeeps(cfg, s, announced, i, opens); }
    case Accept(i) => if i < |s.streams| { AcceptKeeps(cfg, s, announced, i); }
    case Deliver(i, out) => if i < |s.streams| { DeliverKeeps(cfg, s, announced, i, out); }
    case Finish => FinishKeeps(cfg, s, announced);
  }

  lemma {:induction false} Reachable(cfg: Config, numStreams: nat, announced: nat, disk: Disk, steps: seq<Step>)
    requires GoodConfig(cfg) && |cfg.files| <= announced
    ensures Inv(cfg, Run(cfg, Initial(cfg, numStreams, announced, disk), steps), announced)
  {
    if steps == [] {
      InitialInv(cfg, numStreams, announced, disk);
    } else {
      Reachable(cfg, numStreams, announced, disk, steps[..|steps| - 1]);
      StepKeeps(cfg, Run(cfg, Initial(cfg, numStreams, announced, disk), steps[..|steps| - 1]), announced,
                steps[|steps| - 1]);
    }
  }

  // ------------------------------------------------------------------- theorems

  /** The state after a run from the start of a transfer. */
  function EndState(cfg: Config, numStreams: nat, announced: nat, disk: Disk, steps: seq<Step>): System {
    Run(cfg, Initial(cfg, numStreams, announced, disk), steps)
  }

  /** No assertion of the receiver ever fires, across any number of files per stream. */
  lemma NoAssertionFires(cfg: Config, numStreams: nat, announced: nat, disk: Disk, steps: seq<Step>)
    requires GoodConfig(cfg) && |cfg.files| <= announced
    ensures !EndState(cfg, numStreams, announced, disk, steps).fault
  {
    Reachable(cfg, numStreams, announced, disk, steps);
  }

  /**
   Whatever fails, on the sending side, on the way or on the receiver's disk, what is
   stored of a file whose output was opened is a prefix of that file, and all that has
   arrived of it unless its own writes failed.
   */
  lemma StoredIsPrefix(cfg: Config, numStreams: nat, announced: nat, disk: Disk, steps: seq<Step>, i: nat, f: nat)
    requires GoodConfig(cfg) && |cfg.files| <= announced
    requires var s := EndState(cfg, numStreams, announced, disk, steps);
             i < |s.streams| && f in s.streams[i].sink.begun
    ensures var s := EndState(cfg, numStreams, announced, disk, steps);
            var st := s.streams[i];
            && f < |cfg.files| && cfg.Name(f) in s.disk && s.disk[cfg.Name(f)] <= cfg.Content(f)
            && (f !in st.sink.failed && f in st.progress.complete ==> s.disk[cfg.Name(f)] == cfg.Content(f))
            && (f !in st.sink.failed && st.progress.cur.At? && st.progress.cur.file == f ==>
                  st.progress.cur.off <= cfg.Size(f) && s.disk[cfg.Name(f)] == cfg.Content(f)[..st.progress.cur.off])
  {
    Reachable(cfg, numStreams, announced, disk, steps);
    assert StreamInv(cfg, EndState(cfg, numStreams, announced, disk, steps), i);
  }

  /** A file reaches the receiver through one stream only: the one that took it from the queue. */
  lemma OneStreamPerFile(cfg: Config, numStreams: nat, announced: nat, disk: Disk, steps: seq<Step>,
                         i: nat, j: nat, f: nat)
    requires GoodConfig(cfg) && |cfg.files| <= announced
    requires var s := EndState(cfg, numStreams, announced, disk, steps);
             && i < |s.streams| && j < |s.streams|
             && f in s.streams[i].progress.started
             && (|| f in s.streams[j].progress.started
                 || exists k :: 0 <= k < |s.streams[j].chan| && s.streams[j].chan[k].file == f)
    ensures i == j && f in EndState(cfg, numStreams, announced, disk, steps).taken
    ensures f !in EndState(cfg, numStreams, announced, disk, steps).queue
  {
    Reachable(cfg, numStreams, announced, disk, steps);
    var s := EndState(cfg, numStreams, announced, disk, steps);
    assert StreamInv(cfg, s, i) && StreamInv(cfg, s, j);
  }

  /**
   The countdown never lies: at every moment it is short of the announced number by
   exactly the files received completely, and those are stored byte for byte.
   */
  lemma CountdownIsExact(cfg: Config, numStreams: nat, announced: nat, disk: Disk, steps: seq<Step>)
    requires GoodConfig(cfg) && |cfg.files| <= announced
    ensures var s := EndState(cfg, numStreams, announced, disk, steps);
            && s.numFiles == announced - |s.finished| >= 0
            && forall f :: f in s.finished ==>
                 && f < |cfg.files| && cfg.Size(f) > 0
                 && cfg.Name(f) in s.disk && s.disk[cfg.Name(f)] == cfg.Content(f)
  {
    Reachable(cfg, numStreams, announced, disk, steps);
    var s := EndState(cfg, numStreams, announced, disk, steps);
    BelowSize(s.finished, |cfg.files|);
    forall f | f in s.finished
      ensures cfg.Name(f) in s.disk && s.disk[cfg.Name(f)] == cfg.Content(f)
    {
      assert SomeStreamHas(s, f);
      var i: nat :| i < |s.streams| && f in Received(s.streams[i]);
      assert StreamInv(cfg, s, i);
    }
  }

  /**
   The countdown reaches zero exactly when every file has been received completely and
   no more files were announced than are sent.
   */
  lemma CountdownReachesZero(cfg: Config, numStreams: nat, announced: nat, disk: Disk, steps: seq<Step>)
    requires GoodConfig(cfg) && |cfg.files| <= announced
    ensures var s := EndState(cfg, numStreams, announced, disk, steps);
            s.numFiles == 0 <==> announced == |cfg.files| && forall f: nat :: f < |cfg.files| ==> f in s.finished
  {
    CountdownIsExact(cfg, numStreams, announced, disk, steps);
    var s := EndState(cfg, numStreams, announced, disk, steps);
    BelowSize(s.finished, |cfg.files|);
    if forall f: nat :: f < |cfg.files| ==> f in s.finished {
      AllBelow(s.finished, |cfg.files|);
    }
  }

  lemma {:induction false} AllBelow(x: set<nat>, n: nat)
    requires forall f: nat :: f < n ==> f in x
    ensures |x| >= n
  {
    if n > 0 {
      AllBelow(x - {n - 1}, n - 1);
    }
  }

  /** An empty file produces no block, so with one in the list the countdown never reaches zero. */
  lemma EmptyFileNeverCounted(cfg: Config, numStreams: nat, announced: nat, disk: Disk, steps: seq<Step>, f: nat)
    requires GoodConfig(cfg) && |cfg.files| <= announced
    requires f < |cfg.files| && cfg.Size(f) == 0
    ensures EndState(cfg, numStreams, announced, disk, steps).numFiles > 0
  {
    CountdownIsExact(cfg, numStreams, announced, disk, steps);
    CountdownReachesZero(cfg, numStreams, announced, disk, steps);
  }

  /** Nothing failed, every thread has stopped and every channel is drained. */
  ghost predicate Clean(s: System) {
    && !s.done
    && forall i: nat :: i < |s.streams| ==>
         && s.streams[i].chan == [] && s.streams[i].thread.phase.Stopped?
         && !s.streams[i].thread.err && s.streams[i].thread.dropped == {} && s.streams[i].sink.failed == {}
  }

  lemma CleanMeansFinished(cfg: Config, s: System, announced: nat, g: nat)
    requires Inv(cfg, s, announced) && Clean(s) && |s.streams| > 0
    requires g < |cfg.files| && cfg.Size(g) > 0
    ensures g in s.finished
  {
    assert s.streams[0].thread.phase.Stopped?;
    assert g in s.taken;
    var i := s.taken[g];
    assert Fate(cfg, i, s.streams[i], g);
    assert g in Received(s.streams[i]);
  }

  /** Names that survive the transfer and files that are not empty. */
  ghost predicate Transferable(cfg: Config) {
    && GoodConfig(cfg)
    && forall g: nat :: g < |cfg.files| ==> cfg.Size(g) > 0 && NulFree(cfg.files[g].name) && Fits(cfg.files[g].name)
  }

  /**
   Nothing failed, every thread has stopped and every channel is drained: then every
   file stands under its own name, byte for byte, and the countdown is at zero. Any
   number of streams, any interleaving, any ideal lengths, compressed or raw.
   */
  lemma CleanRunDeliversEverything(cfg: Config, numStreams: nat, disk: Disk, steps: seq<Step>, f: nat)
    requires Transferable(cfg) && numStreams > 0
    requires Clean(EndState(cfg, numStreams, |cfg.files|, disk, steps)) && f < |cfg.files|
    ensures var s := EndState(cfg, numStreams, |cfg.files|, disk, steps);
            && s.numFiles == 0
            && cfg.files[f].name in s.disk && s.disk[cfg.files[f].name] == cfg.files[f].content
  {
    var s := EndState(cfg, numStreams, |cfg.files|, disk, steps);
    Reachable(cfg, numStreams, |cfg.files|, disk, steps);
    StreamCountFixed(cfg, numStreams, |cfg.files|, disk, steps);
    forall g: nat | g < |cfg.files|
      ensures g in s.finished
    {
      CleanMeansFinished(cfg, s, |cfg.files|, g);
    }
    CountdownIsExact(cfg, numStreams, |cfg.files|, disk, steps);
    CountdownReachesZero(cfg, numStreams, |cfg.files|, disk, steps);
    NameRoundTrip(cfg.files[f].name);
  }

  lemma {:induction false} StreamCountFixed(cfg: Config, numStreams: nat, announced: nat, disk: Disk, steps: seq<Step>)
    ensures |EndState(cfg, numStreams, announced, disk, steps).streams| == numStreams
  {
    if steps != [] {
      var before := steps[..|steps| - 1];
      StreamCountFixed(cfg, numStreams, announced, disk, before);
      StepKeepsStreamCount(cfg, EndState(cfg, numStreams, announced, disk, before), steps[|steps| - 1]);
    }
  }

  lemma StepKeepsStreamCount(cfg: Config, s: System, step: Step)
    ensures |Apply(cfg, s, step).streams| == |s.streams|
  {
  }

  /** A refused block of a failed stream is abandoned, although the count of bytes sent goes on. */
  lemma AbandonedBlockStillCounts(cfg: Config, i: nat, done: bool, t: Thread)
    requires t.phase.Sending? && (t.err || !t.connected || done)
    ensures var u := ApplyThread(cfg, i, done, ApplyThread(cfg, i, done, t, Refuse), Abandon);
            u.phase == AtInner(t.phase.f, t.phase.sent + t.phase.n, t.phase.eof) && u.lost
    ensures ApplyThread(cfg, i, done, t, Abandon).lost == (t.lost || t.phase.refused)
  {
  }

  /** What taking a file leads to: the end with nothing left, the next try with a file that does not open. */
  lemma TakingAFile(cfg: Config, s: System, i: nat, opens: bool)
    requires i < |s.streams| && s.streams[i].thread.phase.AtDequeue?
    ensures var u, t := Apply(cfg, s, Dequeue(i, opens)), s.streams[i].thread;
            && |u.streams| == |s.streams| && u.streams[i].chan == s.streams[i].chan
            && (s.queue == [] ==> u.streams[i].thread.phase == Stopped && u.queue == [])
            && (s.queue != [] ==>
                  && u.queue == s.queue[1..]
                  && (opens ==> u.streams[i].thread == t.(phase := AtInner(s.queue[0], 0, false)))
                  && (!opens ==> u.streams[i].thread == t.(phase := AtOuter, dropped := t.dropped + {s.queue[0]})))
  {
  }

  /** A read error gives the file up; an undisturbed thread goes on to read. */
  lemma ReadErrorGivesUp(cfg: Config, i: nat, t: Thread)
    requires t.phase.AtInner? && !t.phase.eof
    ensures var u := ApplyThread(cfg, i, false, t, CheckInner(true));
            u.phase == AtOuter && t.phase.f in u.dropped
    ensures !t.err && t.connected ==>
              ApplyThread(cfg, i, false, t, CheckInner(false)).phase == Filling(t.phase.f, t.phase.sent)
  {
  }

  /** After a block was abandoned on a stream, nothing more enters that stream's channel. */
  lemma NothingFollowsAbandoned(cfg: Config, numStreams: nat, announced: nat, disk: Disk, steps: seq<Step>,
                                step: Step, i: nat)
    requires GoodConfig(cfg) && |cfg.files| <= announced
    requires var s := EndState(cfg, numStreams, announced, disk, steps);
             i < |s.streams| && s.streams[i].thread.lost
    ensures var s := EndState(cfg, numStreams, announced, disk, steps);
            var u := EndState(cfg, numStreams, announced, disk, steps + [step]);
            && |u.streams| == |s.streams| && u.streams[i].thread.lost
            && (u.streams[i].chan == s.streams[i].chan
                || (s.streams[i].chan != [] && u.streams[i].chan == s.streams[i].chan[1..]))
  {
    var s := EndState(cfg, numStreams, announced, disk, steps);
    assert (steps + [step])[..|steps|] == steps;
    Reachable(cfg, numStreams, announced, disk, steps);
    assert StreamInv(cfg, s, i);
    LostStep(cfg, s, step, i);
  }

  lemma LostWork(cfg: Config, i: nat, done: bool, t: Thread, step: ThreadStep)
    ensures t.lost ==> ApplyThread(cfg, i, done, t, step).lost
  {
  }

  lemma LostStep(cfg: Config, s: System, step: Step, i: nat)
    requires i < |s.streams| && s.streams[i].thread.lost && !s.streams[i].thread.phase.Sending?
    ensures var u := Apply(cfg, s, step);
            && |u.streams| == |s.streams| && u.streams[i].thread.lost
            && (u.streams[i].chan == s.streams[i].chan
                || (s.streams[i].chan != [] && u.streams[i].chan == s.streams[i].chan[1..]))
  {
    if step.Work? && step.i < |s.streams| {
      LostWork(cfg, step.i, s.done, s.streams[step.i].thread, step.step);
    } else if step.Dequeue? && step.i < |s.streams| {
      assert Took(s.streams[step.i], s.queue, step.opens).chan == s.streams[step.i].chan;
    }
  }

  // ---------------------------------------------------------------- after a failure

  /** A thread that was stopped, failed or lost its connection, with no block in hand. */
  predicate Halted(t: Thread, done: bool) {
    (t.err || !t.connected || done) && !t.phase.Sending? && !t.phase.Filling?
  }

  lemma HaltedThread(cfg: Config, i: nat, done: bool, t: Thread, step: ThreadStep)
    requires Halted(t, done)
    ensures Halted(ApplyThread(cfg, i, done, t, step), done)
  {
  }

  lemma HaltedStep(cfg: Config, s: System, step: Step, i: nat)
    requires i < |s.streams| && Halted(s.streams[i].thread, s.done)
    ensures var u := Apply(cfg, s, step);
            && |u.streams| == |s.streams| && Halted(u.streams[i].thread, u.done)
            && |u.streams[i].chan| <= |s.streams[i].chan|
  {
    if step.Work? && step.i == i {
      HaltedThread(cfg, i, s.done, s.streams[i].thread, step.step);
    } else if step.Dequeue? && step.i == i {
      HaltedTaker(s.streams[i], s.queue, step.opens, s.done);
    } else if !step.Finish? && step.i != i {
      OthersStay(cfg, s, step, i);
    }
  }

  /** A step of one stream leaves the others alone. */
  lemma OthersStay(cfg: Config, s: System, step: Step, i: nat)
    requires i < |s.streams| && !step.Finish? && step.i != i
    ensures var u := Apply(cfg, s, step);
            |u.streams| == |s.streams| && u.streams[i] == s.streams[i] && u.done == s.done
  {
  }

  lemma HaltedTaker(st: Stream, queue: seq<nat>, opens: bool, done: bool)
    requires Halted(st.thread, done)
    ensures Halted(Took(st, queue, opens).thread, done) && Took(st, queue, opens).chan == st.chan
  {
  }

  lemma {:induction false} HaltedRun(cfg: Config, s: System, more: seq<Step>, i: nat)
    requires i < |s.streams| && Halted(s.streams[i].thread, s.done)
    ensures var u := Run(cfg, s, more);
            && |u.streams| == |s.streams| && Halted(u.streams[i].thread, u.done)
            && |u.streams[i].chan| <= |s.streams[i].chan|
  {
    if more != [] {
      HaltedRun(cfg, s, more[..|more| - 1], i);
      HaltedStep(cfg, Run(cfg, s, more[..|more| - 1]), more[|more| - 1], i);
    }
  }

  /**
   A failed send, a lost connection and the end of the test stop a stream: if it has no block
   in hand then, its channel never gets another block, in any continuation.
   */
  lemma NothingSentAfterFailure(cfg: Config, s: System, step: Step, more: seq<Step>, i: nat)
    requires i < |s.streams| && !s.streams[i].thread.phase.Sending? && !s.streams[i].thread.phase.Filling?
    requires step == Work(i, Fail) || step == Work(i, Disconnect) || step == Finish
    ensures var u := Run(cfg, Apply(cfg, s, step), more);
            |u.streams| == |s.streams| && |u.streams[i].chan| <= |s.streams[i].chan|
  {
    HaltedRun(cfg, Apply(cfg, s, step), more, i);
  }

  /** A thread that failed, or whose test ended, and that is not just about to take a file. */
  predicate Sated(t: Thread, done: bool) {
    (t.err || done) && !t.phase.AtDequeue?
  }

  lemma SatedStep(cfg: Config, s: System, step: Step, i: nat)
    requires i < |s.streams| && Sated(s.streams[i].thread, s.done)
    ensures var u := Apply(cfg, s, step);
            && |u.streams| == |s.streams| && Sated(u.streams[i].thread, u.done)
            && forall f :: f in u.taken && u.taken[f] == i ==> f in s.taken && s.taken[f] == i
  {
    if step.Work? && step.i == i {
      SatedThread(cfg, i, s.done, s.streams[i].thread, step.step);
    } else if !step.Finish? && step.i != i {
      OthersStay(cfg, s, step, i);
    }
  }

  lemma SatedThread(cfg: Config, i: nat, done: bool, t: Thread, step: ThreadStep)
    requires Sated(t, done)
    ensures Sated(ApplyThread(cfg, i, done, t, step), done)
  {
  }

  lemma {:induction false} SatedRun(cfg: Config, s: System, more: seq<Step>, i: nat)
    requires i < |s.streams| && Sated(s.streams[i].thread, s.done)
    ensures var u := Run(cfg, s, more);
            && |u.streams| == |s.streams| && Sated(u.streams[i].thread, u.done)
            && forall f :: f in u.taken && u.taken[f] == i ==> f in s.taken && s.taken[f] == i
  {
    if more != [] {
      SatedRun(cfg, s, more[..|more| - 1], i);
      SatedStep(cfg, Run(cfg, s, more[..|more| - 1]), more[|more| - 1], i);
    }
  }

  /**
   After a failed send and after the end of the test a stream takes no further file, in any
   continuation, unless it had already passed the test at the head of its loop.
   */
  lemma NoFileTakenAfterFailure(cfg: Config, s: System, step: Step, more: seq<Step>, i: nat)
    requires i < |s.streams| && !s.streams[i].thread.phase.AtDequeue?
    requires step == Work(i, Fail) || step == Finish
    ensures var taken := Run(cfg, Apply(cfg, s, step), more).taken;
            forall f :: f in taken && taken[f] == i ==> f in s.taken && s.taken[f] == i
  {
    SatedRun(cfg, Apply(cfg, s, step), more, i);
  }
}
