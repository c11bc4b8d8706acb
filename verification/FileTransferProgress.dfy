/**
 Every transfer comes to an end: each step that changes anything uses up work, and a
 transfer without failures can only stop when everything has been delivered.
 */
module FileTransferProgress {
  import opened Bytes
  import opened FileBlocks
  import opened FileTransferSystem
  import opened FileTransferProofs
  import opened FileTransferTheorems

  // ------------------------------------------------------------ the work still to do

  /** Eight units for each byte not yet handed to the transport. */
  ghost function BytesWork(cfg: Config, f: nat, sent: nat): nat {
    if f < |cfg.files| && sent <= cfg.Size(f) then 8 * (cfg.Size(f) - sent) else 0
  }

  ghost function PhaseWork(cfg: Config, ph: Phase): nat {
    match ph
    case AtOuter => 2
    case AtDequeue => 1
    case AtInner(f, sent, eof) => if eof then 3 else BytesWork(cfg, f, sent) + 6
    case Filling(f, sent) => BytesWork(cfg, f, sent) + 5
    case Sending(f, sent, n, eof, bytes, refused) => BytesWork(cfg, f, sent) + (if refused then 3 else 4)
    case Stopped => 0
  }

  /** The flags count too: an error or a disconnection is noticed once. */
  ghost function ThreadWork(cfg: Config, t: Thread): nat {
    PhaseWork(cfg, t.phase) + (if t.err then 0 else 1) + (if t.connected then 1 else 0)
  }

  ghost function StreamWork(cfg: Config, st: Stream): nat {
    ThreadWork(cfg, st.thread) + |st.chan|
  }

  ghost function StreamsWork(cfg: Config, sts: seq<Stream>): nat {
    if sts == [] then 0 else StreamsWork(cfg, sts[..|sts| - 1]) + StreamWork(cfg, sts[|sts| - 1])
  }

  ghost function QueueWork(cfg: Config, queue: seq<nat>): nat {
    if queue == [] then 0 else BytesWork(cfg, queue[0], 0) + 10 + QueueWork(cfg, queue[1..])
  }

  ghost function Remaining(cfg: Config, s: System): nat {
    QueueWork(cfg, s.queue) + StreamsWork(cfg, s.streams) + (if s.done then 0 else 1)
  }

  lemma {:induction false} ReplaceStream(cfg: Config, sts: seq<Stream>, i: nat, st: Stream)
    requires i < |sts|
    ensures StreamsWork(cfg, sts[i := st]) == StreamsWork(cfg, sts) - StreamWork(cfg, sts[i]) + StreamWork(cfg, st)
  {
    var n := |sts| - 1;
    if i == n {
      assert sts[i := st][..n] == sts[..n];
    } else {
      ReplaceStream(cfg, sts[..n], i, st);
      assert sts[i := st][..n] == sts[..n][i := st];
    }
  }

  // --------------------------------------------------- every effective step uses some up

  lemma FillUsesWork(cfg: Config, i: nat, t: Thread, ideal: int)
    requires t.phase.Filling? && t.phase.f < |cfg.files| && t.phase.sent <= cfg.Size(t.phase.f)
    ensures var u := FillBlock(cfg, i, t, ideal);
            u == t || ThreadWork(cfg, u) < ThreadWork(cfg, t)
  {
  }

  lemma ThreadUsesWork(cfg: Config, i: nat, done: bool, t: Thread, step: ThreadStep)
    requires t.phase.Sending? ==>
               t.phase.f < |cfg.files| && t.phase.n > 0 && t.phase.sent + t.phase.n <= cfg.Size(t.phase.f)
    ensures var u := ApplyThread(cfg, i, done, t, step);
            u == t || ThreadWork(cfg, u) < ThreadWork(cfg, t)
  {
    if step.Fill? && t.phase.Filling? && t.phase.f < |cfg.files| && t.phase.sent <= cfg.Size(t.phase.f) {
      FillUsesWork(cfg, i, t, step.ideal);
    }
  }

  lemma WorkStepUsesWork(cfg: Config, s: System, i: nat, step: ThreadStep)
    requires StreamsInv(cfg, s) && i < |s.streams|
    ensures var u := ApplyWork(cfg, s, i, step);
            u == s || Remaining(cfg, u) < Remaining(cfg, s)
  {
    var st := s.streams[i];
    assert StreamInv(cfg, s, i);
    ThreadUsesWork(cfg, i, s.done, st.thread, step);
    var t := ApplyThread(cfg, i, s.done, st.thread, step);
    if t == st.thread {
      assert s.streams[i := st] == s.streams;
    } else {
      ReplaceStream(cfg, s.streams, i, st.(thread := t));
    }
  }

  lemma DequeueUsesWork(cfg: Config, s: System, i: nat, opens: bool)
    requires i < |s.streams|
    ensures var u := ApplyDequeue(s, i, opens);
            u == s || Remaining(cfg, u) < Remaining(cfg, s)
  {
    var st := s.streams[i];
    if st.thread.phase.AtDequeue? {
      var u := ApplyDequeue(s, i, opens);
      assert u.streams == s.streams[i := u.streams[i]];
      ReplaceStream(cfg, s.streams, i, u.streams[i]);
      if s.queue == [] {
        assert StreamWork(cfg, u.streams[i]) < StreamWork(cfg, st);
      } else {
        var f := s.queue[0];
        assert QueueWork(cfg, s.queue) == BytesWork(cfg, f, 0) + 10 + QueueWork(cfg, u.queue);
        assert StreamWork(cfg, u.streams[i]) < StreamWork(cfg, st) + BytesWork(cfg, f, 0) + 10;
      }
    }
  }

  lemma AcceptUsesWork(cfg: Config, s: System, i: nat)
    requires StreamsInv(cfg, s) && i < |s.streams|
    ensures var u := ApplyAccept(s, i);
            u == s || Remaining(cfg, u) < Remaining(cfg, s)
  {
    assert StreamInv(cfg, s, i);
    if s.streams[i].thread.phase.Sending? {
      AcceptedWork(cfg, s.streams[i]);
      ReplaceStream(cfg, s.streams, i, Accepted(s.streams[i]));
    }
  }

  lemma AcceptedWork(cfg: Config, st: Stream)
    requires st.thread.phase.Sending?
    requires var ph := st.thread.phase;
             ph.f < |cfg.files| && ph.n > 0 && ph.sent + ph.n <= cfg.Size(ph.f)
    ensures StreamWork(cfg, Accepted(st)) < StreamWork(cfg, st)
  {
  }

  lemma DeliverUsesWork(cfg: Config, s: System, i: nat, out: Output)
    requires i < |s.streams|
    ensures var u := ApplyDeliver(cfg, s, i, out);
            u == s || Remaining(cfg, u) < Remaining(cfg, s)
  {
    ReplaceStream(cfg, s.streams, i, ApplyDeliver(cfg, s, i, out).streams[i]);
  }

  /** A step of any kind, failures included, changes nothing or uses up work. */
  lemma StepUsesWork(cfg: Config, s: System, step: Step)
    requires StreamsInv(cfg, s)
    ensures Apply(cfg, s, step) == s || Remaining(cfg, Apply(cfg, s, step)) < Remaining(cfg, s)
  {
    match step
    case Work(i, t) => if i < |s.streams| { WorkStepUsesWork(cfg, s, i, t); }
    case Dequeue(i, opens) => if i < |s.streams| { DequeueUsesWork(cfg, s, i, opens); }
    case Accept(i) => if i < |s.streams| { AcceptUsesWork(cfg, s, i); }
    case Deliver(i, out) => if i < |s.streams| { DeliverUsesWork(cfg, s, i, out); }
    case Finish =>
  }

  /** How many steps of a run changed anything. */
  ghost function Effective(cfg: Config, s: System, steps: seq<Step>): nat {
    if steps == [] then 0
    else
      var before := steps[..|steps| - 1];
      Effective(cfg, s, before) + (if Run(cfg, s, steps) == Run(cfg, s, before) then 0 else 1)
  }

  /**
   Whatever the schedule and whatever fails, a run makes no more effective steps than
   there is work at its start: the nested send loops cannot go on for ever.
   */
  lemma {:induction false} RunsEnd(cfg: Config, numStreams: nat, announced: nat, disk: Disk, steps: seq<Step>)
    requires GoodConfig(cfg) && |cfg.files| <= announced
    ensures var s0 := Initial(cfg, numStreams, announced, disk);
            Effective(cfg, s0, steps) + Remaining(cfg, Run(cfg, s0, steps)) <= Remaining(cfg, s0)
  {
    if steps != [] {
      var before := steps[..|steps| - 1];
      RunsEnd(cfg, numStreams, announced, disk, before);
      Reachable(cfg, numStreams, announced, disk, before);
      StepUsesWork(cfg, EndState(cfg, numStreams, announced, disk, before), steps[|steps| - 1]);
    }
  }

  // ----------------------------------------------------------------- without failures

  /** Steps that are not failures: files open and read, nothing breaks or is cut short. */
  predicate Working(step: Step) {
    match step
    case Work(_, t) => !t.Fail? && !t.Disconnect? && !(t.CheckInner? && t.bad)
    case Dequeue(_, opens) => opens
    case Accept(_) => true
    case Deliver(_, out) => out == Full
    case Finish => false
  }

  predicate AllWorking(steps: seq<Step>) {
    forall k :: 0 <= k < |steps| ==> Working(steps[k])
  }

  predicate Unharmed(t: Thread) {
    !t.err && t.connected && !t.lost && t.dropped == {}
  }

  ghost predicate NoFailure(s: System) {
    && !s.done
    && forall i: nat :: i < |s.streams| ==>
         Unharmed(s.streams[i].thread) && !IsBroken(s.streams[i].sink.writer) && s.streams[i].sink.failed == {}
  }

  lemma WorkingThread(cfg: Config, i: nat, t: Thread, step: ThreadStep)
    requires Unharmed(t) && !step.Fail? && !step.Disconnect? && !(step.CheckInner? && step.bad)
    ensures Unharmed(ApplyThread(cfg, i, false, t, step))
  {
  }

  lemma WorkingStep(cfg: Config, s: System, step: Step)
    requires NoFailure(s) && Working(step)
    ensures NoFailure(Apply(cfg, s, step))
  {
    if step.Work? && step.i < |s.streams| {
      WorkingThread(cfg, step.i, s.streams[step.i].thread, step.step);
    } else if step.Deliver? && step.i < |s.streams| {
      WorkingDelivery(cfg, s, step.i);
    }
  }

  lemma WorkingDelivery(cfg: Config, s: System, i: nat)
    requires NoFailure(s) && i < |s.streams|
    ensures NoFailure(ApplyDeliver(cfg, s, i, Full))
  {
    var st := s.streams[i];
    if st.chan != [] && st.chan[0].file < |cfg.files| {
      NeverBreaks(cfg.codec, st.sink.writer, s.disk, s.numFiles, st.chan[0].bytes);
    }
  }

  /** A file system that does everything breaks no writer. */
  lemma NeverBreaks(c: Codec, w: Writer, disk: Disk, numFiles: int, b: seq<Byte>)
    requires !IsBroken(w)
    ensures !IsBroken(Handle(c, w, disk, numFiles, b, Full).writer)
  {
  }

  lemma {:induction false} WorkingRun(cfg: Config, numStreams: nat, announced: nat, disk: Disk, steps: seq<Step>)
    requires AllWorking(steps)
    ensures NoFailure(EndState(cfg, numStreams, announced, disk, steps))
  {
    if steps != [] {
      var before := steps[..|steps| - 1];
      WorkingRun(cfg, numStreams, announced, disk, before);
      WorkingStep(cfg, EndState(cfg, numStreams, announced, disk, before), steps[|steps| - 1]);
    }
  }

  /** No working step changes anything any more. */
  ghost predicate Stuck(cfg: Config, s: System) {
    forall step :: Working(step) ==> Apply(cfg, s, step) == s
  }

  /** A thread that has not stopped has a step to make. */
  lemma ThreadCanMove(cfg: Config, s: System, i: nat) returns (step: Step)
    requires StreamsInv(cfg, s) && NoFailure(s) && i < |s.streams| && !s.streams[i].thread.phase.Stopped?
    ensures Working(step) && Apply(cfg, s, step).streams != s.streams
  {
    var t := s.streams[i].thread;
    assert StreamInv(cfg, s, i) && Unharmed(t);
    if t.phase.AtDequeue? {
      step := Dequeue(i, true);
    } else if t.phase.Sending? {
      step := Accept(i);
    } else {
      var own := ThreadMoves(cfg, i, t);
      step := Work(i, own);
    }
    assert Apply(cfg, s, step).streams[i].thread.phase != t.phase;
  }

  /** The steps a thread makes on its own. */
  lemma ThreadMoves(cfg: Config, i: nat, t: Thread) returns (step: ThreadStep)
    requires Unharmed(t) && (t.phase.AtOuter? || t.phase.AtInner? || t.phase.Filling?)
    requires t.phase.Filling? ==> t.phase.f < |cfg.files| && t.phase.sent <= cfg.Size(t.phase.f)
    ensures Working(Work(i, step)) && ApplyThread(cfg, i, false, t, step).phase != t.phase
  {
    match t.phase
    case AtOuter => step := CheckOuter;
    case AtInner(f, sent, eof) => step := CheckInner(false);
    case Filling(f, sent) => step := Fill(4096);
  }

  /** A channel that holds a block can deliver it. */
  lemma ChannelCanMove(cfg: Config, s: System, i: nat)
    requires StreamsInv(cfg, s) && i < |s.streams| && s.streams[i].chan != []
    ensures Apply(cfg, s, Deliver(i, Full)).streams != s.streams
  {
    assert StreamInv(cfg, s, i);
    assert |Apply(cfg, s, Deliver(i, Full)).streams[i].chan| < |s.streams[i].chan|;
  }

  /** A transfer without failures is never held up: unless it is complete, something can happen. */
  lemma StuckMeansClean(cfg: Config, s: System)
    requires StreamsInv(cfg, s) && NoFailure(s)
    ensures Stuck(cfg, s) ==> Clean(s)
  {
    if i: nat :| i < |s.streams| && !s.streams[i].thread.phase.Stopped? {
      var step := ThreadCanMove(cfg, s, i);
      assert Apply(cfg, s, step) != s;
    } else if i: nat :| i < |s.streams| && s.streams[i].chan != [] {
      ChannelCanMove(cfg, s, i);
      assert Working(Deliver(i, Full)) && Apply(cfg, s, Deliver(i, Full)) != s;
    } else {
      assert forall i: nat :: i < |s.streams| ==> Unharmed(s.streams[i].thread);
    }
  }

  /**
   Any schedule without failures that has run until nothing more can happen has
   delivered every file under its name, byte for byte, and counted down to zero.
   */
  lemma CompletedRunDeliversEverything(cfg: Config, numStreams: nat, disk: Disk, steps: seq<Step>, f: nat)
    requires Transferable(cfg) && numStreams > 0 && f < |cfg.files|
    requires AllWorking(steps) && Stuck(cfg, EndState(cfg, numStreams, |cfg.files|, disk, steps))
    ensures var s := EndState(cfg, numStreams, |cfg.files|, disk, steps);
            && s.numFiles == 0
            && cfg.files[f].name in s.disk && s.disk[cfg.files[f].name] == cfg.files[f].content
  {
    Reachable(cfg, numStreams, |cfg.files|, disk, steps);
    WorkingRun(cfg, numStreams, |cfg.files|, disk, steps);
    StuckMeansClean(cfg, EndState(cfg, numStreams, |cfg.files|, disk, steps));
    CleanRunDeliversEverything(cfg, numStreams, disk, steps, f);
  }

  lemma CanMove(cfg: Config, s: System) returns (step: Step)
    requires !Stuck(cfg, s)
    ensures Working(step) && Apply(cfg, s, step) != s
  {
    step :| Working(step) && Apply(cfg, s, step) != s;
  }

  /** Unless nothing can happen any more, a run without failures has a step that uses up work. */
  lemma NextStep(cfg: Config, numStreams: nat, announced: nat, disk: Disk, steps: seq<Step>) returns (step: Step)
    requires GoodConfig(cfg) && |cfg.files| <= announced
    requires !Stuck(cfg, EndState(cfg, numStreams, announced, disk, steps))
    ensures Working(step)
    ensures Remaining(cfg, EndState(cfg, numStreams, announced, disk, steps + [step]))
            < Remaining(cfg, EndState(cfg, numStreams, announced, disk, steps))
  {
    var s := EndState(cfg, numStreams, announced, disk, steps);
    step := CanMove(cfg, s);
    Reachable(cfg, numStreams, announced, disk, steps);
    StepUsesWork(cfg, s, step);
    assert (steps + [step])[..|steps|] == steps;
  }

  /** Every schedule without failures can be continued to such an end. */
  lemma {:induction false} EveryRunCanComplete(cfg: Config, numStreams: nat, announced: nat, disk: Disk,
                                               steps: seq<Step>)
    returns (all: seq<Step>)
    requires GoodConfig(cfg) && |cfg.files| <= announced && AllWorking(steps)
    ensures steps <= all && AllWorking(all) && Stuck(cfg, EndState(cfg, numStreams, announced, disk, all))
    decreases Remaining(cfg, EndState(cfg, numStreams, announced, disk, steps))
  {
    if Stuck(cfg, EndState(cfg, numStreams, announced, disk, steps)) {
      all := steps;
    } else {
      var step := NextStep(cfg, numStreams, announced, disk, steps);
      all := EveryRunCanComplete(cfg, numStreams, announced, disk, steps + [step]);
    }
  }
}
