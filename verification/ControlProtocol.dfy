/**
 The control channel of a test (`example/iperf-bats/iperf_test.cc`, driven by
 `example/iperf-bats/iperf_bats_api.cc`): two state machines over two FIFO
 channels whose acknowledgement does not say what it acknowledges. Sending a
 message, reading the state and storing it are separate steps, because the peer,
 the main thread, the network callbacks and the signal handler run in between.
 */
module ControlProtocol {

  datatype TestState = TestNone | TestExchangeParameters | TestStart | TestExchangeReports | TestDone

  /** What an acknowledgement was sent for. Not on the wire: no handler looks at it. */
  datatype Origin = ForParams | ForSummary

  datatype Msg = Params | Summary | Ack(origin: Origin) | Ready

  /** Where the main thread of the sender is. */
  datatype Main =
    | WaitReady       // polling IsStreamReady
    | Polling         // polling TestFinishState
    | Reporting       // in OnSentFinished, summary not sent
    | SummarySent     // summary sent, state not yet stored
    | WaitDone
    | Exited

  /** A state the network callback of the sender is about to store. */
  datatype Io = IoIdle | StoringParams | StoringStart | StoringDone

  /** How far `Stop` has got: not called, called, state stored, streams released. */
  datatype Stop = Running | Stopping | Dropping | Stopped

  /** The sending side; `creating` streams are still to be made by the ack handler. */
  datatype Sender = Sender(
    numStreams: int,
    state: TestState,
    channel: bool,
    established: bool,
    io: Io,
    creating: int,
    streams: int,
    connected: int,
    readyReceived: bool,
    signalled: bool,
    stop: Stop,
    main: Main)

  /** A message being handled, its acknowledgement sent, and the state chosen after it. */
  datatype Phase = Idle | Handling(origin: Origin) | Acking(origin: Origin) | Storing(origin: Origin, next: TestState)

  /** The receiving side; `processed` records that a summary was taken in. */
  datatype Receiver = Receiver(state: TestState, phase: Phase, accepted: int, processed: bool)

  /** An acknowledgement consumed in TEST_EXCHANGE_REPORTS, and the receiver at that moment. */
  datatype Seen = Seen(origin: Origin, rcv: Receiver)

  datatype Past = Past(paramAcked: bool, summarySent: bool, poppedParams: int, poppedSummary: int, seen: seq<Seen>)

  datatype System = System(snd: Sender, rcv: Receiver, toRcv: seq<Msg>, toSnd: seq<Msg>, past: Past)

  datatype SenderStep =
    | Establish
    | StoreParams
    | Receive
    | StoreAck
    | CreateStream
    | ConnectStream
    | CheckReady
    | GiveUp
    | Interrupt
    | Poll(verdict: Verdict)
    | SendSummary
    | StoreReports
    | CloseChannel
    | Signal
    | StopOnSignal
    | Exit
    | StoreDone
    | DropStreams

  /** What TestFinishState finds: nothing yet, the time is up, or all streams dead. */
  datatype Verdict = NotYet | TimeUp | DeadStreams

  datatype ReceiverStep = Take | SendAckMessage | CheckAckState | StoreAckState | AcceptStream(udp: bool) | StopReceiver

  datatype Step = S(s: SenderStep) | R(r: ReceiverStep)

  const FreshReceiver := Receiver(TestNone, Idle, 0, false)

  function Initial(numStreams: int): System {
    System(Sender(numStreams, TestNone, false, false, IoIdle, 0, 0, 0, false, false, Running, WaitReady),
           FreshReceiver, [], [], Past(false, false, 0, 0, []))
  }

  // ----------------------------------------------------------------- the sender

  /**
   `HandleAckMessage` up to its store. The message itself plays no part: what an
   acknowledgement means is decided by the state it is read in.
   */
  function DecideAck(s: Sender): Sender {
    match s.state
    case TestExchangeParameters => s.(io := StoringStart)
    case TestExchangeReports => s.(io := StoringDone)
    case _ => s
  }

  /** The store of `HandleAckMessage`; in the first case the streams are made next. */
  function StoreAfterAck(s: Sender): Sender {
    match s.io
    case StoringStart =>
      s.(io := IoIdle, state := TestStart, creating := if s.numStreams > 0 then s.numStreams else 0)
    case StoringDone => s.(io := IoIdle, state := TestDone)
    case _ => s
  }

  /** `IsStreamReady`: all streams connected and as many of them as configured. */
  predicate StreamsReady(s: Sender) {
    s.connected == s.streams && s.streams == s.numStreams
  }

  /** `Stop`: only the first call goes on to store TEST_DONE and to release the streams. */
  function BeginStop(s: Sender): Sender {
    if s.stop == Running then s.(stop := Stopping) else s
  }

  function ReceiveAck(s: System, o: Origin): System
    requires s.toSnd != []
  {
    s.(toSnd := s.toSnd[1..],
       snd := DecideAck(s.snd),
       past := s.past.(paramAcked := s.past.paramAcked || s.snd.state == TestExchangeParameters,
                       poppedParams := s.past.poppedParams + (if o == ForParams then 1 else 0),
                       poppedSummary := s.past.poppedSummary + (if o == ForSummary then 1 else 0),
                       seen := if s.snd.state == TestExchangeReports
                               then s.past.seen + [Seen(o, s.rcv)] else s.past.seen))
  }

  /** The network callback can take the next message. */
  predicate CanReceive(s: Sender) {
    s.channel && s.io == IoIdle && s.creating <= 0
  }

  function ApplyReceive(s: System): System {
    if !CanReceive(s.snd) || s.toSnd == [] then s
    else
      match s.toSnd[0]
      case Ack(o) => ReceiveAck(s, o)
      case Ready => s.(toSnd := s.toSnd[1..], snd := s.snd.(readyReceived := true))
      case _ => s.(toSnd := s.toSnd[1..])
  }

  /**
   `TestFinishState`, as far as the protocol is concerned. Its test and its store are
   one step: other threads can only store TEST_DONE in between, as it does itself.
   */
  function ApplyPoll(s: Sender, v: Verdict): Sender {
    if s.main != Polling then s
    else if s.state == TestDone || v == TimeUp then s.(main := Reporting)
    else if v == DeadStreams then s.(state := TestDone, main := Reporting)
    else s
  }

  function ApplySendSummary(s: System): System {
    if s.snd.main != Reporting then s
    else if !s.snd.channel then s.(snd := s.snd.(main := WaitDone))
    else s.(snd := s.snd.(main := SummarySent), toRcv := s.toRcv + [Summary], past := s.past.(summarySent := true))
  }

  /** The steps of the sender that only change the sender itself. */
  function ApplyLocal(s: Sender, step: SenderStep): Sender {
    match step
    case StoreParams => if s.io == StoringParams then s.(io := IoIdle, state := TestExchangeParameters) else s
    case StoreAck => StoreAfterAck(s)
    case CreateStream => if s.creating <= 0 then s else s.(creating := s.creating - 1, streams := s.streams + 1)
    case ConnectStream => if s.connected >= s.streams then s else s.(connected := s.connected + 1)
    case CheckReady => if s.main == WaitReady && StreamsReady(s) then s.(main := Polling) else s
    case GiveUp => if s.main == WaitReady then s.(main := Exited) else s
    case Interrupt =>
      if s.signalled && (s.main == WaitReady || s.main == Polling) then s.(main := WaitDone) else s
    case Poll(v) => ApplyPoll(s, v)
    case StoreReports =>
      if s.main == SummarySent then s.(state := TestExchangeReports, main := WaitDone) else s
    case CloseChannel => BeginStop(s.(channel := false))
    case Signal => s.(signalled := true)
    case StopOnSignal => if s.signalled then BeginStop(s) else s
    case Exit => if s.main == WaitDone then BeginStop(s).(main := Exited) else s
    case StoreDone => if s.stop == Stopping then s.(stop := Dropping, state := TestDone) else s
    case DropStreams => if s.stop == Dropping then s.(stop := Stopped, streams := 0, connected := 0) else s
    case _ => s
  }

  predicate IsLocal(step: SenderStep) {
    !step.Establish? && !step.Receive? && !step.SendSummary?
  }

  function ApplySender(s: System, step: SenderStep): System {
    match step
    case Establish =>
      if s.snd.established then s
      else s.(snd := s.snd.(established := true, channel := true, io := StoringParams), toRcv := s.toRcv + [Params])
    case Receive => ApplyReceive(s)
    case SendSummary => ApplySendSummary(s)
    case _ => s.(snd := ApplyLocal(s.snd, step))
  }

  // --------------------------------------------------------------- the receiver

  /** The state `SendAck` chooses after the acknowledgement has gone out. */
  function AfterAck(state: TestState): TestState {
    match state
    case TestNone => TestStart
    case TestStart => TestDone
    case _ => state
  }

  /** A message is taken and, unless the test is done already, handled. */
  function ApplyTake(s: System): System {
    if s.rcv.phase != Idle || s.toRcv == [] then s
    else
      var rest := s.toRcv[1..];
      if s.rcv.state == TestDone then s.(toRcv := rest)
      else
        match s.toRcv[0]
        case Params => s.(toRcv := rest, rcv := s.rcv.(phase := Handling(ForParams)))
        case Summary => s.(toRcv := rest, rcv := s.rcv.(phase := Handling(ForSummary)))
        case _ => s.(toRcv := rest)
  }

  function ApplySendAck(s: System): System {
    if !s.rcv.phase.Handling? then s
    else
      var o := s.rcv.phase.origin;
      s.(toSnd := s.toSnd + [Ack(o)],
         rcv := s.rcv.(phase := Acking(o), processed := s.rcv.processed || o == ForSummary))
  }

  /** The receiver's own stream count stays 1, so the first accepted stream makes it ready. */
  function ApplyReceiver(s: System, step: ReceiverStep): System {
    match step
    case Take => ApplyTake(s)
    case SendAckMessage => ApplySendAck(s)
    case CheckAckState =>
      if !s.rcv.phase.Acking? then s
      else
        var next := AfterAck(s.rcv.state);
        s.(rcv := s.rcv.(phase := if next == s.rcv.state then Idle else Storing(s.rcv.phase.origin, next)))
    case StoreAckState =>
      if !s.rcv.phase.Storing? then s
      else s.(rcv := s.rcv.(phase := Idle, state := s.rcv.phase.next))
    case AcceptStream(udp) =>
      if s.rcv.accepted >= s.snd.streams then s
      else s.(rcv := s.rcv.(accepted := s.rcv.accepted + 1),
              toSnd := if !udp && s.rcv.accepted + 1 == 1 then s.toSnd + [Ready] else s.toSnd)
    case StopReceiver => s.(rcv := s.rcv.(state := TestDone))
  }

  function Apply(s: System, step: Step): System {
    match step
    case S(t) => ApplySender(s, t)
    case R(t) => ApplyReceiver(s, t)
  }

  function Run(s: System, steps: seq<Step>): System {
    if steps == [] then s else Apply(Run(s, steps[..|steps| - 1]), steps[|steps| - 1])
  }

  lemma RunAppend(s: System, steps: seq<Step>, step: Step)
    ensures Run(s, steps + [step]) == Apply(Run(s, steps), step)
  {
    assert (steps + [step])[..|steps|] == steps;
  }

  // ------------------------------------------------------------------ invariants

  /** How often a message is waiting in a channel. */
  ghost function Waiting(q: seq<Msg>, m: Msg): int {
    multiset(q)[m]
  }

  lemma PopCounts(q: seq<Msg>, m: Msg)
    requires q != []
    ensures Waiting(q[1..], m) == Waiting(q, m) - (if q[0] == m then 1 else 0)
    ensures Waiting(q[1..], m) >= 0
  {
    assert q == [q[0]] + q[1..];
  }

  lemma PushCounts(q: seq<Msg>, x: Msg, m: Msg)
    ensures Waiting(q + [x], m) == Waiting(q, m) + (if x == m then 1 else 0)
    ensures Waiting(q, m) >= 0
  {
  }

  /** One exchange on its way: request waiting, in hand, acknowledgement waiting, acknowledgement read. */
  ghost function InFlight(s: System, request: Msg, o: Origin, popped: int): int {
    Waiting(s.toRcv, request) + (if s.rcv.phase == Handling(o) then 1 else 0) + Waiting(s.toSnd, Ack(o)) + popped
  }

  /** Each exchange happens at most once. */
  ghost predicate OnceInv(s: System) {
    && s.past.poppedParams >= 0 && s.past.poppedSummary >= 0
    && InFlight(s, Params, ForParams, s.past.poppedParams) <= (if s.snd.established then 1 else 0)
    && InFlight(s, Summary, ForSummary, s.past.poppedSummary) <= (if s.past.summarySent then 1 else 0)
  }

  predicate Finishing(m: Main) {
    m == WaitDone || m == Exited
  }

  /** The states possible before, during and after the exchange of parameters. */
  ghost predicate StateInv(n: Sender, p: Past) {
    && (!n.established ==> n.io == IoIdle && (n.state == TestNone || n.state == TestDone) && !p.paramAcked)
    && (n.io == StoringParams ==> n.established && (n.state == TestNone || n.state == TestDone) && !p.paramAcked)
    && (n.established && n.io != StoringParams && !p.paramAcked ==>
          n.state == TestExchangeParameters || n.state == TestDone)
    && (n.io == StoringStart ==> p.paramAcked && (n.state == TestExchangeParameters || n.state == TestDone))
    && (p.paramAcked && n.io != StoringStart ==>
          n.state == TestStart || n.state == TestExchangeReports || n.state == TestDone)
    && (p.paramAcked ==> n.established && p.poppedParams == 1)
  }

  /** With a configured stream, nothing passes the ready check before the first acknowledgement. */
  ghost predicate MainInv(n: Sender, p: Past) {
    && n.streams >= 0 && 0 <= n.connected <= n.streams
    && (n.streams > 0 || n.creating > 0 ==> p.paramAcked && n.io != StoringStart)
    && (n.main == Polling || n.main == Reporting || n.main == SummarySent || p.summarySent ==>
          p.paramAcked && n.io != StoringStart)
    && (n.main == WaitReady || n.main == Polling || n.main == Reporting ==> !p.summarySent)
    && (n.main == SummarySent ==> p.summarySent)
    && (n.state == TestExchangeReports || n.io == StoringDone ==> p.summarySent && Finishing(n.main))
    && (p.summarySent && n.main != SummarySent ==>
          Finishing(n.main) && (n.state == TestExchangeReports || n.state == TestDone))
  }

  ghost predicate SenderInv(s: System) {
    StateInv(s.snd, s.past) && MainInv(s.snd, s.past)
  }

  /** The peer has taken the summary in, and is done or about to store that it is. */
  ghost predicate ReceiverFinished(r: Receiver) {
    && r.processed
    && (|| r.state == TestDone
        || (r.phase == Acking(ForSummary) && AfterAck(r.state) == TestDone)
        || r.phase == Storing(ForSummary, TestDone))
  }

  /** The message in hand is the one for the parameters. */
  predicate InParams(ph: Phase) {
    !ph.Idle? && ph.origin == ForParams
  }

  ghost predicate ReceiverInv(s: System) {
    var r := s.rcv;
    && (r.state == TestNone || r.state == TestStart || r.state == TestDone)
    && (r.processed ==> s.past.summarySent && ReceiverFinished(r))
    && (Waiting(s.toSnd, Ack(ForParams)) + s.past.poppedParams > 0 ==> InParams(r.phase) || r.state != TestNone)
    && (Waiting(s.toSnd, Ack(ForSummary)) + s.past.poppedSummary > 0 ==> r.processed)
    && (InParams(r.phase) || r.phase.Handling? ==> !r.processed)
    && (r.phase == Acking(ForSummary) ==> r.processed && r.state != TestNone)
    && (r.phase.Storing? ==> r.phase.next == TestStart || r.phase.next == TestDone)
    && (r.phase.Storing? && r.phase.origin == ForSummary ==> r.processed && r.phase.next == TestDone)
  }

  ghost predicate SeenInv(s: System) {
    forall i :: 0 <= i < |s.past.seen| ==>
      s.past.seen[i].origin == ForSummary && ReceiverFinished(s.past.seen[i].rcv)
  }

  ghost predicate Inv(s: System) {
    && s.snd.numStreams != 0
    && OnceInv(s) && SenderInv(s) && ReceiverInv(s) && SeenInv(s)
  }

  lemma NoneNegative(s: System)
    ensures Waiting(s.toRcv, Params) >= 0 && Waiting(s.toRcv, Summary) >= 0
    ensures Waiting(s.toSnd, Ack(ForParams)) >= 0 && Waiting(s.toSnd, Ack(ForSummary)) >= 0
  {
  }

  lemma ReadAckKeeps(s: System)
    requires Inv(s) && CanReceive(s.snd) && s.toSnd != [] && s.toSnd[0].Ack?
    ensures Inv(ReceiveAck(s, s.toSnd[0].origin))
  {
    NoneNegative(s);
    PopCounts(s.toSnd, Ack(ForParams));
    PopCounts(s.toSnd, Ack(ForSummary));
    AckKinds(s.toSnd[0]);
  }

  lemma ReceiveKeeps(s: System)
    requires Inv(s)
    ensures Inv(ApplyReceive(s))
  {
    if CanReceive(s.snd) && s.toSnd != [] {
      if s.toSnd[0].Ack? {
        ReadAckKeeps(s);
      } else {
        OtherMessageKeeps(s);
      }
    }
  }

  lemma OtherMessageKeeps(s: System)
    requires Inv(s) && CanReceive(s.snd) && s.toSnd != [] && !s.toSnd[0].Ack?
    ensures Inv(ApplyReceive(s))
  {
    PopCounts(s.toSnd, Ack(ForParams));
    PopCounts(s.toSnd, Ack(ForSummary));
    var u := ApplyReceive(s);
    assert OnceInv(u) && ReceiverInv(u);
  }

  lemma AckKinds(m: Msg)
    ensures m.Ack? ==> m == Ack(ForParams) || m == Ack(ForSummary)
  {
    if m.Ack? {
      match m.origin
      case ForParams =>
      case ForSummary =>
    }
  }

  lemma EstablishKeeps(s: System)
    requires Inv(s)
    ensures Inv(ApplySender(s, Establish))
  {
    NoneNegative(s);
    PushCounts(s.toRcv, Params, Params);
    PushCounts(s.toRcv, Params, Summary);
  }

  lemma SendSummaryKeeps(s: System)
    requires Inv(s)
    ensures Inv(ApplySendSummary(s))
  {
    NoneNegative(s);
    PushCounts(s.toRcv, Summary, Params);
    PushCounts(s.toRcv, Summary, Summary);
  }

  /** The remaining steps of the sender send and receive nothing. */
  lemma LocalKeepsState(n: Sender, p: Past, step: SenderStep)
    requires StateInv(n, p) && MainInv(n, p)
    ensures var m := ApplyLocal(n, step);
            StateInv(m, p) && m.numStreams == n.numStreams && m.established == n.established
  {
  }

  lemma LocalKeepsMain(n: Sender, p: Past, step: SenderStep)
    requires StateInv(n, p) && MainInv(n, p) && n.numStreams != 0
    ensures MainInv(ApplyLocal(n, step), p)
  {
  }

  lemma LocalStepKeeps(s: System, step: SenderStep)
    requires Inv(s)
    ensures Inv(s.(snd := ApplyLocal(s.snd, step)))
  {
    LocalKeepsState(s.snd, s.past, step);
    LocalKeepsMain(s.snd, s.past, step);
  }

  lemma SenderStepKeeps(s: System, step: SenderStep)
    requires Inv(s)
    ensures Inv(ApplySender(s, step))
  {
    if step.Establish? {
      EstablishKeeps(s);
    } else if step.Receive? {
      ReceiveKeeps(s);
    } else if step.SendSummary? {
      SendSummaryKeeps(s);
    } else {
      LocalStepKeeps(s, step);
    }
  }

  lemma TakeKeeps(s: System)
    requires Inv(s)
    ensures Inv(ApplyTake(s))
  {
    NoneNegative(s);
    if s.toRcv != [] {
      PopCounts(s.toRcv, Params);
      PopCounts(s.toRcv, Summary);
    }
  }

  lemma SendAckKeeps(s: System)
    requires Inv(s)
    ensures Inv(ApplySendAck(s))
  {
    NoneNegative(s);
    if s.rcv.phase.Handling? {
      PushCounts(s.toSnd, Ack(s.rcv.phase.origin), Ack(ForParams));
      PushCounts(s.toSnd, Ack(s.rcv.phase.origin), Ack(ForSummary));
    }
  }

  /** Choosing and storing a state, and stopping, touch neither channel. */
  lemma ReceiverStateKeeps(s: System, step: ReceiverStep)
    requires ReceiverInv(s)
    requires step.CheckAckState? || step.StoreAckState? || step.StopReceiver?
    ensures var u := ApplyReceiver(s, step);
            && ReceiverInv(u) && u == s.(rcv := u.rcv)
            && (u.rcv.phase.Handling? ==> u.rcv.phase == s.rcv.phase)
  {
  }

  lemma AcceptKeeps(s: System, udp: bool)
    requires Inv(s)
    ensures Inv(ApplyReceiver(s, AcceptStream(udp)))
  {
    PushCounts(s.toSnd, Ready, Ack(ForParams));
    PushCounts(s.toSnd, Ready, Ack(ForSummary));
  }

  lemma ReceiverStepKeeps(s: System, step: ReceiverStep)
    requires Inv(s)
    ensures Inv(ApplyReceiver(s, step))
  {
    match step
    case Take => TakeKeeps(s);
    case SendAckMessage => SendAckKeeps(s);
    case AcceptStream(udp) => AcceptKeeps(s, udp);
    case _ => ReceiverStateKeeps(s, step);
  }

  lemma {:induction false} Reachable(numStreams: int, steps: seq<Step>)
    requires numStreams != 0
    ensures Inv(Run(Initial(numStreams), steps))
  {
    if steps != [] {
      Reachable(numStreams, steps[..|steps| - 1]);
      var s, step := Run(Initial(numStreams), steps[..|steps| - 1]), steps[|steps| - 1];
      match step
      case S(t) => SenderStepKeeps(s, t);
      case R(t) => ReceiverStepKeeps(s, t);
    }
  }

  // -------------------------------------------------- what an acknowledgement means

  /**
   Unless the stream count is zero, an acknowledgement consumed while reports are
   exchanged is the one for the summary: the receiver has taken the summary in and is
   done, or is about to store that it is. In every interleaving, dead streams, stops
   and signals included.
   */
  lemma ReportAckIsGenuine(numStreams: int, steps: seq<Step>, i: int)
    requires numStreams != 0
    requires 0 <= i < |Run(Initial(numStreams), steps).past.seen|
    ensures var e := Run(Initial(numStreams), steps).past.seen[i];
            && e.origin == ForSummary && e.rcv.processed
            && (|| e.rcv.state == TestDone
                || (e.rcv.phase == Acking(ForSummary) && AfterAck(e.rcv.state) == TestDone)
                || e.rcv.phase == Storing(ForSummary, TestDone))
  {
    Reachable(numStreams, steps);
  }

  /** The receiver has acknowledged the summary and not yet stored TEST_DONE. */
  predicate AboutToBeDone(r: Receiver) {
    r.phase == Acking(ForSummary) || r.phase == Storing(ForSummary, TestDone)
  }

  /** While nobody stops the receiver, its state is the one it was in when it took the message in hand. */
  ghost predicate UnstoppedInv(r: Receiver) {
    (r.phase.Handling? ==> r.state != TestDone) && (AboutToBeDone(r) ==> r.state == TestStart)
  }

  ghost predicate AllUnstopped(s: System) {
    UnstoppedInv(s.rcv) && forall i :: 0 <= i < |s.past.seen| ==> UnstoppedInv(s.past.seen[i].rcv)
  }

  lemma UnstoppedStep(s: System, step: Step)
    requires Inv(s) && SummaryComesSecond(s) && AllUnstopped(s) && step != R(StopReceiver)
    ensures AllUnstopped(Apply(s, step))
  {
    if step.R? {
      UnstoppedReceiver(s, step.r);
    } else if step.s.Receive? {
      assert ApplyReceive(s).rcv == s.rcv;
    }
  }

  lemma UnstoppedReceiver(s: System, step: ReceiverStep)
    requires ReceiverInv(s) && SummaryComesSecond(s) && UnstoppedInv(s.rcv) && !step.StopReceiver?
    ensures UnstoppedInv(ApplyReceiver(s, step).rcv) && ApplyReceiver(s, step).past == s.past
  {
  }

  /** A summary in hand means that the parameters were answered. */
  ghost predicate SummaryComesSecond(s: System) {
    s.rcv.phase == Handling(ForSummary) ==> s.rcv.state != TestNone
  }

  lemma SummaryIsSecond(s: System)
    requires Inv(s)
    ensures SummaryComesSecond(s)
  {
    NoneNegative(s);
  }

  lemma {:induction false} UnstoppedRun(numStreams: int, steps: seq<Step>)
    requires numStreams != 0 && R(StopReceiver) !in steps
    ensures AllUnstopped(Run(Initial(numStreams), steps))
  {
    if steps != [] {
      var before, step := steps[..|steps| - 1], steps[|steps| - 1];
      UnstoppedRun(numStreams, before);
      Reachable(numStreams, before);
      SummaryIsSecond(Run(Initial(numStreams), before));
      UnstoppedStep(Run(Initial(numStreams), before), step);
    }
  }

  /**
   While nobody stops the receiver, it is TEST_DONE at the moment the sender consumes the
   report acknowledgement exactly unless it is still between sending the acknowledgement
   and storing that state, and then it is in TEST_START.
   */
  lemma ReceiverDoneAtReportAck(numStreams: int, steps: seq<Step>, i: int)
    requires numStreams != 0 && R(StopReceiver) !in steps
    requires 0 <= i < |Run(Initial(numStreams), steps).past.seen|
    ensures var e := Run(Initial(numStreams), steps).past.seen[i];
            && (e.rcv.state == TestDone <==> !AboutToBeDone(e.rcv))
            && (e.rcv.state == TestStart <==> AboutToBeDone(e.rcv))
  {
    Reachable(numStreams, steps);
    UnstoppedRun(numStreams, steps);
    var s := Run(Initial(numStreams), steps);
    assert UnstoppedInv(s.past.seen[i].rcv) && ReceiverFinished(s.past.seen[i].rcv);
  }

  /** Some run of a test with `numStreams` streams takes the wrong acknowledgement for the report. */
  ghost predicate CanMistakeAck(numStreams: int) {
    exists steps: seq<Step> :: MistakesAck(numStreams, steps)
  }

  ghost predicate MistakesAck(numStreams: int, steps: seq<Step>) {
    exists i :: 0 <= i < |Run(Initial(numStreams), steps).past.seen|
                && Run(Initial(numStreams), steps).past.seen[i].origin != ForSummary
  }

  /** The acknowledgements can be confused exactly when the test has zero streams. */
  lemma AckConfusionIffNoStreams(numStreams: int)
    ensures CanMistakeAck(numStreams) <==> numStreams == 0
  {
    if numStreams == 0 {
      var steps := ConfusedRun();
      assert MistakesAck(0, steps);
    } else {
      forall steps: seq<Step>
        ensures !MistakesAck(numStreams, steps)
      {
        Reachable(numStreams, steps);
      }
    }
  }

  /** With zero streams the main thread passes the ready check at once. */
  lemma EarlyPollingRun() returns (steps: seq<Step>)
    ensures var s := Run(Initial(0), steps);
            && s.snd == Sender(0, TestExchangeParameters, true, true, IoIdle, 0, 0, 0, false, false, Running, Polling)
            && s.rcv == Receiver(TestNone, Acking(ForParams), 0, false) && s.toSnd == [Ack(ForParams)]
            && s.past.seen == []
  {
    var s0 := Initial(0);
    var p1 := [S(Establish)];
    var p2 := p1 + [S(StoreParams)];
    var p3 := p2 + [S(CheckReady)];
    var p4 := p3 + [R(Take)];
    steps := p4 + [R(SendAckMessage)];
    RunAppend(s0, [], S(Establish));
    RunAppend(s0, p1, S(StoreParams));
    RunAppend(s0, p2, S(CheckReady));
    assert Run(s0, p3).snd.main == Polling && Run(s0, p3).toRcv == [Params];
    RunAppend(s0, p3, R(Take));
    RunAppend(s0, p4, R(SendAckMessage));
  }

  /** So the summary can go out before the first acknowledgement is read. */
  lemma ConfusedRun() returns (steps: seq<Step>)
    ensures var seen := Run(Initial(0), steps).past.seen;
            |seen| == 1 && seen[0].origin == ForParams && !seen[0].rcv.processed
  {
    var s0 := Initial(0);
    var p := EarlyPollingRun();
    var p1 := p + [S(Poll(DeadStreams))];
    var p2 := p1 + [S(SendSummary)];
    var p3 := p2 + [S(StoreReports)];
    steps := p3 + [S(Receive)];
    RunAppend(s0, p, S(Poll(DeadStreams)));
    RunAppend(s0, p1, S(SendSummary));
    assert Run(s0, p2).snd.main == SummarySent && Run(s0, p2).toSnd == [Ack(ForParams)];
    RunAppend(s0, p2, S(StoreReports));
    RunAppend(s0, p3, S(Receive));
  }

  // ------------------------------------------------------ runs with a single stream

  /** Parameters sent, stored, and acknowledged by the peer. */
  lemma AcknowledgedRun() returns (steps: seq<Step>)
    ensures var s := Run(Initial(1), steps);
            && s.snd == Sender(1, TestExchangeParameters, true, true, IoIdle, 0, 0, 0, false, false, Running, WaitReady)
            && s.rcv == Receiver(TestNone, Acking(ForParams), 0, false) && s.toRcv == []
            && s.toSnd == [Ack(ForParams)] && s.past.seen == []
  {
    var s0 := Initial(1);
    var p1 := [S(Establish)];
    var p2 := p1 + [S(StoreParams)];
    var p3 := p2 + [R(Take)];
    steps := p3 + [R(SendAckMessage)];
    RunAppend(s0, [], S(Establish));
    RunAppend(s0, p1, S(StoreParams));
    RunAppend(s0, p2, R(Take));
    RunAppend(s0, p3, R(SendAckMessage));
  }

  /** The sender has read the acknowledgement and decided to start, but not yet stored that. */
  lemma DecidedRun() returns (steps: seq<Step>)
    ensures var s := Run(Initial(1), steps);
            && s.snd == Sender(1, TestExchangeParameters, true, true, StoringStart, 0, 0, 0,
                               false, false, Running, WaitReady)
            && s.rcv == Receiver(TestStart, Idle, 0, false) && s.toRcv == [] && s.toSnd == []
            && s.past.seen == []
  {
    var s0 := Initial(1);
    var p := AcknowledgedRun();
    var p1 := p + [R(CheckAckState)];
    var p2 := p1 + [R(StoreAckState)];
    steps := p2 + [S(Receive)];
    RunAppend(s0, p, R(CheckAckState));
    RunAppend(s0, p1, R(StoreAckState));
    RunAppend(s0, p2, S(Receive));
  }

  /** The stream is made and connected, and the main thread polls for the end. */
  lemma PollingRun() returns (steps: seq<Step>)
    ensures var s := Run(Initial(1), steps);
            && s.snd == Sender(1, TestStart, true, true, IoIdle, 0, 1, 1, false, false, Running, Polling)
            && s.rcv == Receiver(TestStart, Idle, 0, false) && s.toRcv == [] && s.toSnd == []
            && s.past.seen == []
  {
    var s0 := Initial(1);
    var p := DecidedRun();
    var p1 := p + [S(StoreAck)];
    var p2 := p1 + [S(CreateStream)];
    var p3 := p2 + [S(ConnectStream)];
    steps := p3 + [S(CheckReady)];
    RunAppend(s0, p, S(StoreAck));
    RunAppend(s0, p1, S(CreateStream));
    RunAppend(s0, p2, S(ConnectStream));
    RunAppend(s0, p3, S(CheckReady));
    OneStreamGetsReady(Run(s0, p));
  }

  /** Storing the start, making the one stream, connecting it and finding it ready. */
  lemma OneStreamGetsReady(s: System)
    requires s.snd == Sender(1, TestExchangeParameters, true, true, StoringStart, 0, 0, 0,
                             false, false, Running, WaitReady)
    ensures Apply(Apply(Apply(Apply(s, S(StoreAck)), S(CreateStream)), S(ConnectStream)), S(CheckReady))
            == s.(snd := Sender(1, TestStart, true, true, IoIdle, 0, 1, 1, false, false, Running, Polling))
  {
    var n := s.snd;
    var n1 := n.(io := IoIdle, state := TestStart, creating := 1);
    assert ApplyLocal(n, StoreAck) == n1;
    var n2 := n1.(creating := 0, streams := 1);
    assert ApplyLocal(n1, CreateStream) == n2;
    assert ApplyLocal(n2, ConnectStream) == n2.(connected := 1);
    assert ApplyLocal(n2.(connected := 1), CheckReady) == n2.(connected := 1, main := Polling);
  }

  /** The summary has been sent; the verdict that ended the test is a parameter. */
  lemma ReportingRun(v: Verdict) returns (steps: seq<Step>)
    requires v != NotYet
    ensures var s := Run(Initial(1), steps);
            && s.snd == Sender(1, if v == DeadStreams then TestDone else TestStart, true, true, IoIdle, 0, 1, 1,
                               false, false, Running, SummarySent)
            && s.rcv == Receiver(TestStart, Idle, 0, false) && s.toRcv == [Summary] && s.toSnd == []
            && s.past.seen == []
  {
    var s0 := Initial(1);
    var p := PollingRun();
    var p1 := p + [S(Poll(v))];
    steps := p1 + [S(SendSummary)];
    RunAppend(s0, p, S(Poll(v)));
    RunAppend(s0, p1, S(SendSummary));
  }

  /** The peer has acknowledged the summary, and the main thread has not stored its state yet. */
  lemma SummaryAckedRun() returns (steps: seq<Step>)
    ensures var s := Run(Initial(1), steps);
            && s.snd == Sender(1, TestStart, true, true, IoIdle, 0, 1, 1, false, false, Running, SummarySent)
            && s.rcv == Receiver(TestStart, Acking(ForSummary), 0, true) && s.toSnd == [Ack(ForSummary)]
            && s.past.seen == []
  {
    var s0 := Initial(1);
    var p := ReportingRun(TimeUp);
    var p1 := p + [R(Take)];
    steps := p1 + [R(SendAckMessage)];
    RunAppend(s0, p, R(Take));
    RunAppend(s0, p1, R(SendAckMessage));
  }

  /** The acknowledgement leaves before the receiver stores TEST_DONE, so the sender can be done first. */
  lemma SenderCanBeDoneFirst() returns (steps: seq<Step>)
    ensures var s := Run(Initial(1), steps);
            s.snd.state == TestDone && |s.past.seen| == 1 && s.rcv.state == TestStart && s.rcv.processed
  {
    var s0 := Initial(1);
    var p := SummaryAckedRun();
    var p1 := p + [S(StoreReports)];
    var p2 := p1 + [S(Receive)];
    steps := p2 + [S(StoreAck)];
    RunAppend(s0, p, S(StoreReports));
    assert Run(s0, p1).snd.state == TestExchangeReports && Run(s0, p1).toSnd == [Ack(ForSummary)];
    RunAppend(s0, p1, S(Receive));
    assert Run(s0, p2).snd.io == StoringDone;
    RunAppend(s0, p2, S(StoreAck));
  }

  // ------------------------------------------------- when the report acknowledgement works

  /** The next message the sender reads is the acknowledgement of its summary. */
  predicate ReportAckNext(s: System) {
    CanReceive(s.snd) && s.toSnd != [] && s.toSnd[0] == Ack(ForSummary)
  }

  /** Steps that call `Stop`. */
  predicate Stops(step: Step) {
    step == S(CloseChannel) || step == S(Exit) || step == S(StopOnSignal)
  }

  predicate NoStops(steps: seq<Step>) {
    forall i :: 0 <= i < |steps| ==> !Stops(steps[i])
  }

  lemma ReadOnce(s: System)
    requires Inv(s) && ReportAckNext(s)
    ensures var u := Apply(s, S(Receive));
            && Inv(u) && u.snd == DecideAck(s.snd) && u.past.summarySent && u.past.poppedSummary == 1
            && s.past.summarySent
  {
    NoneNegative(s);
    PopCounts(s.toSnd, Ack(ForSummary));
    ReadAckKeeps(s);
  }

  /** No acknowledgement is left that the sender could still read. */
  lemma NoAckLeft(s: System)
    requires Inv(s) && s.past.paramAcked && s.past.poppedSummary == 1
    ensures s.toSnd != [] ==> !s.toSnd[0].Ack?
  {
    NoneNegative(s);
    if s.toSnd != [] {
      PopCounts(s.toSnd, Ack(ForParams));
      PopCounts(s.toSnd, Ack(ForSummary));
      assert s.toSnd[0] != Ack(ForParams) && s.toSnd[0] != Ack(ForSummary);
      AckKinds(s.toSnd[0]);
    }
  }

  /**
   The acknowledgement was read before the main thread stored TEST_EXCHANGE_REPORTS, and no
   stop is under way: that store is still to come or has been made.
   */
  ghost predicate Lost(s: System) {
    && s.past.poppedSummary == 1 && s.past.summarySent && s.snd.io == IoIdle && s.snd.stop != Stopping
    && (s.snd.main == SummarySent || (Finishing(s.snd.main) && s.snd.state == TestExchangeReports))
  }

  lemma LostStep(s: System, step: Step)
    requires Inv(s) && Lost(s) && !Stops(step)
    ensures Lost(Apply(s, step))
  {
    NoAckLeft(s);
    if step.S? && IsLocal(step.s) {
      LostLocally(s.snd, step.s);
    }
  }

  lemma LostLocally(n: Sender, step: SenderStep)
    requires n.io == IoIdle && n.stop != Stopping && !Stops(S(step))
    requires n.main == SummarySent || (Finishing(n.main) && n.state == TestExchangeReports)
    ensures var m := ApplyLocal(n, step);
            && m.io == IoIdle && m.stop != Stopping
            && (m.main == SummarySent || (Finishing(m.main) && m.state == TestExchangeReports))
  {
  }

  /** The acknowledgement was read after that store: TEST_DONE is about to be stored or has been. */
  ghost predicate Ended(s: System) {
    && s.past.summarySent && Finishing(s.snd.main)
    && (s.snd.io == StoringDone || (s.snd.io == IoIdle && s.snd.state == TestDone))
  }

  lemma EndedStep(s: System, step: Step)
    requires Inv(s) && Ended(s)
    ensures Ended(Apply(s, step))
  {
    if step.S? && IsLocal(step.s) {
      EndedLocally(s.snd, step.s);
    }
  }

  lemma EndedLocally(n: Sender, step: SenderStep)
    requires Finishing(n.main) && (n.io == StoringDone || (n.io == IoIdle && n.state == TestDone))
    ensures var m := ApplyLocal(n, step);
            Finishing(m.main) && (m.io == StoringDone || (m.io == IoIdle && m.state == TestDone))
  {
    FinishingLocally(n, step);
    if !step.StoreAck? {
      OtherStores(n, step);
      IoStays(n, step);
    }
  }

  /** Only the two stores of the network callback change what it is about to store. */
  lemma IoStays(n: Sender, step: SenderStep)
    requires n.io != StoringParams && !step.StoreAck?
    ensures ApplyLocal(n, step).io == n.io
  {
  }

  lemma FinishingLocally(n: Sender, step: SenderStep)
    requires Finishing(n.main)
    ensures Finishing(ApplyLocal(n, step).main)
  {
  }

  lemma {:induction false} OutcomeStays(s: System, more: seq<Step>)
    requires Inv(s) && NoStops(more)
    ensures Inv(Run(s, more))
    ensures Lost(s) ==> Lost(Run(s, more))
    ensures Ended(s) ==> Ended(Run(s, more))
  {
    if more != [] {
      var before, step := more[..|more| - 1], more[|more| - 1];
      OutcomeStays(s, before);
      var u := Run(s, before);
      if step.S? { SenderStepKeeps(u, step.s); } else { ReceiverStepKeeps(u, step.r); }
      if Lost(s) { LostStep(u, step); }
      if Ended(s) { EndedStep(u, step); }
    }
  }

  /** What reading the report acknowledgement decides. */
  lemma ReadingDecides(s: System)
    requires Inv(s) && ReportAckNext(s) && s.snd.stop != Stopping
    ensures Inv(Apply(s, S(Receive)))
    ensures if s.snd.main == SummarySent then Lost(Apply(s, S(Receive))) else Ended(Apply(s, S(Receive)))
  {
    ReadOnce(s);
  }

  /**
   The report acknowledgement ends the test exactly when it is not read between sending the
   summary and storing TEST_EXCHANGE_REPORTS. Whatever happens afterwards, in any order and
   short of a stop, once the two stores that may be pending have been made the state is
   TEST_DONE in the one case and TEST_EXCHANGE_REPORTS in the other.
   */
  lemma ReportAckOutcome(numStreams: int, steps: seq<Step>, more: seq<Step>)
    requires numStreams != 0 && NoStops(more)
    requires var s := Run(Initial(numStreams), steps);
             ReportAckNext(s) && s.snd.stop != Stopping
    ensures var s := Run(Initial(numStreams), steps);
            var u := Run(Apply(s, S(Receive)), more);
            u.snd.io == IoIdle && u.snd.main != SummarySent ==>
              && (u.snd.state == TestDone <==> s.snd.main != SummarySent)
              && (u.snd.state == TestExchangeReports <==> s.snd.main == SummarySent)
  {
    Reachable(numStreams, steps);
    var s := Run(Initial(numStreams), steps);
    ReadingDecides(s);
    OutcomeStays(Apply(s, S(Receive)), more);
  }

  /** A lost acknowledgement is final: without a stop the test never gets to TEST_DONE. */
  lemma LostReportAckIsFinal(numStreams: int, steps: seq<Step>, more: seq<Step>)
    requires numStreams != 0 && NoStops(more) && Lost(Run(Initial(numStreams), steps))
    requires Run(Initial(numStreams), steps).snd.main != SummarySent
    ensures var u := Run(Run(Initial(numStreams), steps), more);
            u.snd.state == TestExchangeReports && u.past.poppedSummary == 1
  {
    Reachable(numStreams, steps);
    StaysStored(Run(Initial(numStreams), steps), more);
  }

  lemma {:induction false} StaysStored(s: System, more: seq<Step>)
    requires Inv(s) && NoStops(more) && Lost(s) && s.snd.main != SummarySent
    ensures Lost(Run(s, more)) && Run(s, more).snd.main != SummarySent
  {
    OutcomeStays(s, more);
    if more != [] {
      var before, step := more[..|more| - 1], more[|more| - 1];
      StaysStored(s, before);
      OutcomeStays(s, before);
      FinishingStep(Run(s, before), step);
    }
  }

  lemma FinishingStep(s: System, step: Step)
    requires Finishing(s.snd.main)
    ensures Finishing(Apply(s, step).snd.main)
  {
    if step.S? && IsLocal(step.s) {
      FinishingLocally(s.snd, step.s);
    }
  }

  /** Such a run exists with a single stream. */
  lemma ReportAckCanBeLost() returns (steps: seq<Step>)
    ensures var s := Run(Initial(1), steps);
            Lost(s) && s.snd.state == TestExchangeReports && s.past.seen == []
  {
    var s0 := Initial(1);
    var p := SummaryAckedRun();
    var p1 := p + [S(Receive)];
    steps := p1 + [S(StoreReports)];
    RunAppend(s0, p, S(Receive));
    RunAppend(s0, p1, S(StoreReports));
    Reachable(1, p);
    ReadingDecides(Run(s0, p));
    assert Run(s0, p1).past.seen == [] && Run(s0, p1).snd.main == SummarySent;
    Reachable(1, p1);
    LostStep(Run(s0, p1), S(StoreReports));
  }

  // ---------------------------------------------------------------- ready and stopped

  /** The first accepted stream, unless it is UDP, makes the receiver say that it is ready; no later one does. */
  lemma FirstStreamSaysReady(s: System, udp: bool)
    requires s.rcv.accepted < s.snd.streams
    ensures var u := Apply(s, R(AcceptStream(udp)));
            && u.rcv.accepted == s.rcv.accepted + 1
            && u.toSnd == if !udp && s.rcv.accepted == 0 then s.toSnd + [Ready] else s.toSnd
  {
  }

  /** The sender notices it. */
  lemma ReadyIsNoticed(s: System)
    requires CanReceive(s.snd) && s.toSnd != [] && s.toSnd[0] == Ready
    ensures var u := Apply(s, S(Receive));
            u.snd == s.snd.(readyReceived := true) && u.toSnd == s.toSnd[1..]
  {
  }

  ghost predicate ReadyInv(s: System) {
    && s.rcv.accepted >= 0
    && Waiting(s.toSnd, Ready) + (if s.snd.readyReceived then 1 else 0) <= (if s.rcv.accepted > 0 then 1 else 0)
  }

  lemma ReadySenderStep(s: System, step: SenderStep)
    requires ReadyInv(s)
    ensures ReadyInv(ApplySender(s, step))
  {
    if step.Receive? && s.toSnd != [] {
      PopCounts(s.toSnd, Ready);
    } else if IsLocal(step) {
      ReadyStays(s.snd, step);
    }
  }

  lemma ReadyStays(n: Sender, step: SenderStep)
    ensures ApplyLocal(n, step).readyReceived == n.readyReceived
  {
  }

  lemma ReadyReceiverStep(s: System, step: ReceiverStep)
    requires ReadyInv(s)
    ensures ReadyInv(ApplyReceiver(s, step))
  {
    PushCounts(s.toSnd, Ready, Ready);
    if s.rcv.phase.Handling? {
      PushCounts(s.toSnd, Ack(s.rcv.phase.origin), Ready);
    }
  }

  /** In every run it says so at most once, and the sender believes it only if it was said. */
  lemma {:induction false} ReadyAtMostOnce(numStreams: int, steps: seq<Step>)
    ensures ReadyInv(Run(Initial(numStreams), steps))
  {
    if steps != [] {
      var before, step := steps[..|steps| - 1], steps[|steps| - 1];
      ReadyAtMostOnce(numStreams, before);
      match step
      case S(t) => ReadySenderStep(Run(Initial(numStreams), before), t);
      case R(t) => ReadyReceiverStep(Run(Initial(numStreams), before), t);
    }
  }

  /** What the network callback has in hand is finished before it takes the next message. */
  lemma OneMessageAtATime(s: System)
    ensures s.snd.io != IoIdle || s.snd.creating > 0 || !s.snd.channel ==> Apply(s, S(Receive)) == s
    ensures Apply(Apply(s, S(StoreParams)), S(StoreAck)).snd.io == IoIdle
  {
  }

  /** At most `most` streams are made or still to be made, and none before the parameters are acknowledged. */
  ghost predicate StreamsInv(n: Sender, most: int) {
    && most == (if n.numStreams > 0 then n.numStreams else 0)
    && 0 <= n.streams && 0 <= n.creating && n.streams + n.creating <= most
  }

  /** Only the store of TEST_START, which finds no streams, asks for more. */
  lemma StreamsLocally(n: Sender, step: SenderStep, most: int)
    requires StreamsInv(n, most) && (n.io == StoringStart ==> n.streams == 0)
    ensures StreamsInv(ApplyLocal(n, step), most)
  {
    match step
    case StoreAck =>
    case CreateStream =>
    case DropStreams =>
    case _ => StreamsStay(n, step);
  }

  lemma StreamsStay(n: Sender, step: SenderStep)
    requires !step.StoreAck? && !step.CreateStream? && !step.DropStreams?
    ensures var m := ApplyLocal(n, step);
            m.numStreams == n.numStreams && m.streams == n.streams && m.creating == n.creating
  {
  }

  lemma StreamsStep(s: System, step: Step, most: int)
    requires Inv(s) && StreamsInv(s.snd, most) && 0 <= s.rcv.accepted <= most
    ensures StreamsInv(Apply(s, step).snd, most) && 0 <= Apply(s, step).rcv.accepted <= most
  {
    NoneBeforeStart(s.snd, s.past);
    StreamsMove(s, step, most);
  }

  lemma NoneBeforeStart(n: Sender, p: Past)
    requires MainInv(n, p)
    ensures n.io == StoringStart ==> n.streams == 0
  {
  }

  lemma StreamsMove(s: System, step: Step, most: int)
    requires StreamsInv(s.snd, most) && (s.snd.io == StoringStart ==> s.snd.streams == 0) && 0 <= s.rcv.accepted <= most
    ensures StreamsInv(Apply(s, step).snd, most) && 0 <= Apply(s, step).rcv.accepted <= most
  {
    if step.S? && IsLocal(step.s) {
      StreamsLocally(s.snd, step.s, most);
    }
  }

  /** No run makes or accepts more streams than were configured. */
  lemma {:induction false} NoMoreStreamsThanConfigured(numStreams: int, steps: seq<Step>)
    requires numStreams != 0
    ensures var s, most := Run(Initial(numStreams), steps), if numStreams > 0 then numStreams else 0;
            StreamsInv(s.snd, most) && 0 <= s.rcv.accepted <= most
  {
    if steps != [] {
      var before, step := steps[..|steps| - 1], steps[|steps| - 1];
      NoMoreStreamsThanConfigured(numStreams, before);
      Reachable(numStreams, before);
      StreamsStep(Run(Initial(numStreams), before), step, if numStreams > 0 then numStreams else 0);
    }
  }

  /** A call of `Stop` is possible: on a closed channel always, at the end of waiting, after a signal. */
  predicate CanStop(n: Sender, step: SenderStep) {
    step == CloseChannel || (step == Exit && n.main == WaitDone) || (step == StopOnSignal && n.signalled)
  }

  /** The first call of `Stop` ends the test and releases its streams, whatever state it is in. */
  lemma EveryStopEndsTheTest(s: System, step: SenderStep)
    requires CanStop(s.snd, step) && s.snd.stop == Running
    ensures var u := Apply(Apply(Apply(s, S(step)), S(StoreDone)), S(DropStreams)).snd;
            && u.state == TestDone && u.streams == 0 && u.connected == 0 && u.stop == Stopped
            && (step == CloseChannel ==> !u.channel) && (step == Exit ==> u.main == Exited)
  {
    StopBegins(s.snd, step);
    StopFinishes(ApplyLocal(s.snd, step));
  }

  lemma StopBegins(n: Sender, step: SenderStep)
    requires CanStop(n, step) && n.stop == Running
    ensures var m := ApplyLocal(n, step);
            m.stop == Stopping && (step == CloseChannel ==> !m.channel) && (step == Exit ==> m.main == Exited)
  {
  }

  lemma StopFinishes(n: Sender)
    requires n.stop == Stopping
    ensures ApplyLocal(ApplyLocal(n, StoreDone), DropStreams)
            == n.(stop := Stopped, state := TestDone, streams := 0, connected := 0)
  {
    assert ApplyLocal(n, StoreDone) == n.(stop := Dropping, state := TestDone);
  }

  /** A signal, and nothing else, takes the main thread out of its two waiting loops; a time-out out of the first. */
  lemma WaitingCanEnd(s: System)
    requires s.snd.main == WaitReady || s.snd.main == Polling
    ensures Apply(Apply(s, S(Signal)), S(Interrupt)).snd.main == WaitDone
    ensures !s.snd.signalled ==> Apply(s, S(Interrupt)) == s
    ensures s.snd.main == WaitReady ==> Apply(s, S(GiveUp)).snd.main == Exited
  {
  }

  // ------------------------------------------------------------- the order of states

  function Rank(t: TestState): int {
    match t
    case TestNone => 0
    case TestExchangeParameters => 1
    case TestStart => 2
    case TestExchangeReports => 3
    case TestDone => 4
  }

  /** The three stores that were decided before the state became TEST_DONE. */
  predicate LateStore(n: Sender, step: SenderStep) {
    || (step == StoreParams && n.io == StoringParams)
    || (step == StoreAck && n.io == StoringStart)
    || (step == StoreReports && n.main == SummarySent)
  }

  /**
   Unless the stream count is zero, the sender leaves the documented order of states
   exactly when one of three pending stores falls on TEST_DONE, and the receiver exactly
   when it stores TEST_START after it was stopped.
   */
  lemma StatesAdvance(numStreams: int, steps: seq<Step>, step: Step)
    requires numStreams != 0
    ensures var s := Run(Initial(numStreams), steps);
            var u := Run(Initial(numStreams), steps + [step]);
            && (Rank(u.snd.state) < Rank(s.snd.state) <==>
                  s.snd.state == TestDone && step.S? && LateStore(s.snd, step.s))
            && (Rank(u.rcv.state) < Rank(s.rcv.state) <==>
                  s.rcv.state == TestDone && step == R(StoreAckState)
                  && s.rcv.phase.Storing? && s.rcv.phase.next == TestStart)
  {
    Reachable(numStreams, steps);
    RunAppend(Initial(numStreams), steps, step);
    var s := Run(Initial(numStreams), steps);
    if step.S? { SenderStateStep(s, step.s); } else { ReceiverStateStep(s, step.r); }
  }

  lemma SenderStateStep(s: System, step: SenderStep)
    requires SenderInv(s)
    ensures var u := ApplySender(s, step);
            && (Rank(u.snd.state) < Rank(s.snd.state) <==> s.snd.state == TestDone && LateStore(s.snd, step))
            && u.rcv == s.rcv
  {
    if IsLocal(step) {
      LocalStateStep(s.snd, s.past, step);
    }
  }

  lemma LocalStateStep(n: Sender, p: Past, step: SenderStep)
    requires StateInv(n, p) && MainInv(n, p)
    ensures Rank(ApplyLocal(n, step).state) < Rank(n.state) <==> n.state == TestDone && LateStore(n, step)
  {
    if LateStore(n, step) {
      assert n.state != TestDone ==> Rank(n.state) <= Rank(ApplyLocal(n, step).state);
    } else {
      OtherStores(n, step);
    }
  }

  /** All other stores are of TEST_DONE. */
  lemma OtherStores(n: Sender, step: SenderStep)
    requires !LateStore(n, step)
    ensures ApplyLocal(n, step).state == n.state || ApplyLocal(n, step).state == TestDone
  {
  }

  lemma ReceiverStateStep(s: System, step: ReceiverStep)
    requires ReceiverInv(s)
    ensures var u := ApplyReceiver(s, step);
            && (Rank(u.rcv.state) < Rank(s.rcv.state) <==>
                  s.rcv.state == TestDone && step == StoreAckState
                  && s.rcv.phase.Storing? && s.rcv.phase.next == TestStart)
            && u.snd == s.snd
  {
  }

  /** After dead streams the summary takes the sender back from TEST_DONE to TEST_EXCHANGE_REPORTS. */
  lemma DoneToReports() returns (steps: seq<Step>)
    ensures var s0 := Initial(1);
            && Run(s0, steps).snd.state == TestDone
            && Run(s0, steps + [S(StoreReports)]).snd.state == TestExchangeReports
  {
    steps := ReportingRun(DeadStreams);
    RunAppend(Initial(1), steps, S(StoreReports));
  }

  /** The three steps of a signal, from the handler to the store. */
  lemma StoppedBySignal(p: seq<Step>) returns (steps: seq<Step>)
    requires Run(Initial(1), p).snd.stop == Running
    ensures var s := Run(Initial(1), p);
            Run(Initial(1), steps) == s.(snd := s.snd.(signalled := true, stop := Dropping, state := TestDone))
  {
    var s0 := Initial(1);
    var p1 := p + [S(Signal)];
    var p2 := p1 + [S(StopOnSignal)];
    steps := p2 + [S(StoreDone)];
    RunAppend(s0, p, S(Signal));
    RunAppend(s0, p1, S(StopOnSignal));
    RunAppend(s0, p2, S(StoreDone));
    SignalSteps(Run(s0, p));
  }

  lemma SignalSteps(s: System)
    requires s.snd.stop == Running
    ensures Apply(Apply(Apply(s, S(Signal)), S(StopOnSignal)), S(StoreDone))
            == s.(snd := s.snd.(signalled := true, stop := Dropping, state := TestDone))
  {
    var n := s.snd;
    var n1 := n.(signalled := true);
    assert ApplyLocal(n, Signal) == n1;
    assert ApplyLocal(n1, StopOnSignal) == n1.(stop := Stopping);
    assert ApplyLocal(n1.(stop := Stopping), StoreDone) == n1.(stop := Dropping, state := TestDone);
  }

  /** A signal before the connection is up: TEST_DONE to TEST_EXCHANGE_PARAMETERS. */
  lemma DoneToParameters() returns (steps: seq<Step>)
    ensures var s0 := Initial(1);
            && Run(s0, steps).snd.state == TestDone
            && Run(s0, steps + [S(StoreParams)]).snd.state == TestExchangeParameters
  {
    var p := StoppedBySignal([]);
    steps := p + [S(Establish)];
    RunAppend(Initial(1), p, S(Establish));
    RunAppend(Initial(1), steps, S(StoreParams));
  }

  /** A signal while the first acknowledgement is being handled: TEST_DONE to TEST_START. */
  lemma DoneToStart() returns (steps: seq<Step>)
    ensures var s0 := Initial(1);
            && Run(s0, steps).snd.state == TestDone
            && Run(s0, steps + [S(StoreAck)]).snd.state == TestStart
  {
    var p := DecidedRun();
    steps := StoppedBySignal(p);
    RunAppend(Initial(1), steps, S(StoreAck));
  }

  /** The receiver is stopped while it handles the parameters: TEST_DONE to TEST_START. */
  lemma ReceiverDoneToStart() returns (steps: seq<Step>)
    ensures var s0 := Initial(1);
            && Run(s0, steps).rcv.state == TestDone
            && Run(s0, steps + [R(StoreAckState)]).rcv.state == TestStart
  {
    var s0 := Initial(1);
    var p := AcknowledgedRun();
    var p1 := p + [R(CheckAckState)];
    steps := p1 + [R(StopReceiver)];
    RunAppend(s0, p, R(CheckAckState));
    RunAppend(s0, p1, R(StopReceiver));
    RunAppend(s0, steps, R(StoreAckState));
  }
}
