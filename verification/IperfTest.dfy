/**
 `IperfTest` as an object: the control-message handlers, the ready check, and the
 polling that takes the snapshots and ends the test
 (`example/iperf-bats/iperf_test.cc`, `example/iperf-bats/iperf_bats_api.cc`).
 */
module IperfTestObject {
  import opened Arithmetic
  import opened ControlProtocol

  /** What the test sees of one of its streams. */
  datatype StreamInfo = StreamInfo(connected: bool, done: bool, snapshotCnt: nat)

  /** What the other threads do between two polls, and whether an interval has elapsed per stream. */
  datatype Weather = Weather(signal: bool, stop: bool, dead: nat -> bool, elapsed: nat -> bool)

  // ---------------------------------------------------------- ticks and rounds

  /** `std::round` of a non-negative number. */
  function Round(x: real): (r: int)
    ensures r as real - 0.5 <= x < r as real + 0.5
  {
    (x + 0.5).Floor
  }

  /** The snapshot period in ticks is positive exactly from half a tick on. */
  lemma PeriodIsPositive(interval: real, resolution: real)
    requires interval * resolution >= 0.0
    ensures Round(interval * resolution) >= 1 <==> interval * resolution >= 0.5
  {
  }

  lemma RoundsStep(t: nat, m: int)
    requires m >= 1
    ensures (t + 1) / m == t / m + (if (t + 1) % m == 0 then 1 else 0)
  {
    var q, r := t / m, t % m;
    assert t == q * m + r;
    if r + 1 == m {
      assert t + 1 == (q + 1) * m;
      DivModUnique(t + 1, m, q + 1, 0);
    } else {
      assert t + 1 == q * m + (r + 1);
      DivModUnique(t + 1, m, q, r + 1);
    }
  }

  // ------------------------------------------------------------------- the streams

  /** How many streams are connected. */
  ghost function Connected(streams: seq<StreamInfo>): nat {
    if streams == [] then 0
    else Connected(streams[..|streams| - 1]) + (if streams[|streams| - 1].connected then 1 else 0)
  }

  lemma {:induction false} ConnectedCount(streams: seq<StreamInfo>)
    ensures Connected(streams) <= |streams|
    ensures Connected(streams) == |streams| <==> forall i :: 0 <= i < |streams| ==> streams[i].connected
  {
    if streams != [] {
      var n := |streams| - 1;
      ConnectedCount(streams[..n]);
      assert forall i :: 0 <= i < n ==> streams[..n][i] == streams[i];
    }
  }

  // ----------------------------------------------------------------- the object

  class IperfTest {
    const numStreams: int
    var state: TestState
    var streams: seq<StreamInfo>
    var isReadyReceived: bool
    var passedTicks: nat
    var channel: bool
    var outbox: seq<Msg>
    ghost var rounds: nat

    /** The sender of the protocol model that this object is seen as. */
    ghost predicate Shows(n: Sender)
      reads this
    {
      && n.numStreams == numStreams && n.state == state && n.channel == channel
      && n.streams == |streams| && n.connected == Connected(streams)
    }

    constructor (numStreams: int)
      ensures this.numStreams == numStreams && state == TestNone && streams == [] && !isReadyReceived
      ensures passedTicks == 0 && !channel && outbox == [] && rounds == 0
    {
      this.numStreams := numStreams;
      state, streams, isReadyReceived, passedTicks, channel, outbox := TestNone, [], false, 0, false, [];
      rounds := 0;
    }

    /**
     `HandleAckMessage`: state and number of new streams are those of the two protocol
     steps that decide and store.
     */
    method HandleAckMessage()
      modifies this`state, this`streams
      ensures forall n: Sender :: old(Shows(n)) && n.io == IoIdle && n.creating == 0 ==>
                var m := StoreAfterAck(DecideAck(n));
                state == m.state && |streams| == |old(streams)| + m.creating
      ensures old(state) == TestExchangeParameters ==>
                && |streams| == |old(streams)| + (if numStreams > 0 then numStreams else 0)
                && old(streams) <= streams
                && forall i :: |old(streams)| <= i < |streams| ==> streams[i] == StreamInfo(false, false, 0)
      ensures old(state) != TestExchangeParameters ==> streams == old(streams)
    {
      if state == TestDone {
        return;
      }
      if state == TestExchangeParameters {
        state := TestStart;
        var i := 0;
        while i < numStreams
          invariant state == TestStart
          invariant 0 <= i && (numStreams > 0 ==> i <= numStreams)
          invariant numStreams <= 0 ==> i == 0
          invariant |streams| == |old(streams)| + i && old(streams) <= streams
          invariant forall k :: |old(streams)| <= k < |streams| ==> streams[k] == StreamInfo(false, false, 0)
        {
          streams := streams + [StreamInfo(false, false, 0)];
          i := i + 1;
        }
        return;
      }
      if state == TestExchangeReports {
        state := TestDone;
        return;
      }
    }

    /** `SendAck`: the message first, the state after it. */
    method SendAck(origin: Origin)
      modifies this`outbox, this`state
      ensures outbox == old(outbox) + [Ack(origin)]
      ensures state == AfterAck(old(state))
    {
      outbox := outbox + [Ack(origin)];
      if state == TestNone {
        state := TestStart;
        return;
      }
      if state == TestStart {
        state := TestDone;
        return;
      }
    }

    /**
     `SendTestSummary`: whatever the protocol state, what goes out and what is stored is
     what the steps `SendSummary` and `StoreReports` of the main thread make of it; without
     a control channel that is nothing.
     */
    method SendTestSummary()
      modifies this`outbox, this`state
      ensures forall s: System :: old(Shows(s.snd)) && s.snd.main == Reporting && s.toRcv == old(outbox) ==>
                var u := Apply(Apply(s, S(SendSummary)), S(StoreReports));
                outbox == u.toRcv && Shows(u.snd) && u.snd.main == WaitDone
    {
      if !channel {
        return;
      }
      outbox := outbox + [Summary];
      state := TestExchangeReports;
    }

    /**
     `IsStreamReady`. Its last line assigns where it seems to compare, so the outcome
     also overwrites the flag that a ready message sets.
     */
    method IsStreamReady() returns (ready: bool)
      modifies this`isReadyReceived
      ensures forall n: Sender :: Shows(n) ==> ready == StreamsReady(n)
      ensures ready <==> (forall i :: 0 <= i < |streams| ==> streams[i].connected) && |streams| == numStreams
      ensures isReadyReceived ==
                if forall i :: 0 <= i < |streams| ==> streams[i].connected then ready else old(isReadyReceived)
    {
      ConnectedCount(streams);
      var expected := numStreams;
      var i := 0;
      while i < |streams|
        invariant 0 <= i <= |streams|
        invariant expected == numStreams - i
        invariant forall k :: 0 <= k < i ==> streams[k].connected
      {
        if !streams[i].connected {
          return false;
        }
        expected := expected - 1;
        i := i + 1;
      }
      isReadyReceived := expected == 0;
      return isReadyReceived;
    }

    ghost predicate AllDead()
      reads this
    {
      forall i :: 0 <= i < |streams| ==> streams[i].done
    }

    /** One stream after a snapshot round. */
    ghost function Snapped(x: StreamInfo, elapsed: bool): StreamInfo {
      if !x.done && elapsed then x.(snapshotCnt := x.snapshotCnt + 1) else x
    }

    /** The loop over the streams: count the dead, take a snapshot of the others when due. */
    method SnapshotRound(elapsed: nat -> bool) returns (deadStreams: nat)
      modifies this`streams, this`rounds
      ensures rounds == old(rounds) + 1
      ensures |streams| == |old(streams)|
      ensures forall i: nat :: i < |streams| ==>
                var x := old(streams)[i];
                streams[i] == x.(snapshotCnt := if !x.done && elapsed(i) then x.snapshotCnt + 1 else x.snapshotCnt)
      ensures deadStreams == |streams| <==> AllDead()
    {
      deadStreams := 0;
      rounds := rounds + 1;
      var i: nat := 0;
      while i < |streams|
        invariant 0 <= i <= |streams| == |old(streams)| && rounds == old(rounds) + 1
        invariant deadStreams <= i
        invariant deadStreams == i <==> forall k :: 0 <= k < i ==> streams[k].done
        invariant forall k: nat :: k < i ==> streams[k] == Snapped(old(streams)[k], elapsed(k))
        invariant forall k :: i <= k < |streams| ==> streams[k] == old(streams)[k]
      {
        if streams[i].done {
          deadStreams := deadStreams + 1;
        } else {
          if elapsed(i) {
            streams := streams[i := streams[i].(snapshotCnt := streams[i].snapshotCnt + 1)];
          }
          assert !streams[i].done;
        }
        i := i + 1;
      }
    }

    /**
     `TestFinishState` of a sender, with the test length `ticks` and the snapshot
     period `m` in ticks.
     */
    method TestFinishState(ticks: real, m: int, elapsed: nat -> bool) returns (finished: bool)
      requires m >= 1
      modifies this`state, this`passedTicks, this`streams, this`rounds
      ensures |streams| == |old(streams)|
      ensures forall i: nat :: i < |streams| ==>
                var x := old(streams)[i];
                streams[i] == x.(snapshotCnt := if rounds > old(rounds) && !x.done && elapsed(i)
                                                then x.snapshotCnt + 1 else x.snapshotCnt)
      ensures var stopped := old(state) == TestDone;
              var timeUp := old(passedTicks) as real > ticks;
              var due := !stopped && !timeUp && passedTicks % m == 0;
              && passedTicks == (if stopped then old(passedTicks) else old(passedTicks) + 1)
              && rounds == old(rounds) + (if due then 1 else 0)
              && finished == (stopped || timeUp || (due && AllDead()))
              && state == (if due && AllDead() then TestDone else old(state))
      ensures var v := if finished && state != old(state) then DeadStreams else if finished then TimeUp else NotYet;
              forall n: Sender :: n.state == old(state) && n.main == Polling ==>
                var m := ApplyPoll(n, v);
                state == m.state && (finished <==> m.main == Reporting)
    {
      if state == TestDone {
        return true;
      }
      var before := passedTicks;
      passedTicks := passedTicks + 1;
      if before as real > ticks {
        return true;
      }
      if passedTicks % m != 0 {
        return false;
      }
      var deadStreams := SnapshotRound(elapsed);
      if deadStreams == |streams| {
        state := TestDone;
        return true;
      }
      return false;
    }

    /** The state changes other threads may have made since the last poll. */
    method Weathered(w: Weather)
      modifies this`state, this`streams
      ensures state == (if w.stop then TestDone else old(state))
      ensures |streams| == |old(streams)|
      ensures forall i: nat :: i < |streams| ==>
                streams[i] == old(streams)[i].(done := old(streams)[i].done || w.dead(i))
    {
      if w.stop {
        state := TestDone;
      }
      var was := streams;
      streams := seq(|was|, i requires 0 <= i < |was| => was[i].(done := was[i].done || w.dead(i)));
    }

    /** Stream `i` lives and its interval has elapsed at each of the first `n` polls. */
    ghost predicate Steady(weather: nat -> Weather, i: nat, n: nat) {
      forall k: nat :: k < n ==> !weather(k).dead(i) && weather(k).elapsed(i)
    }

    /**
     The polling loop of `EnterSenderIntervalLoop`, whatever happens around it: it ends
     after at most floor(T) + 2 polls; it runs floor((floor(T) + 1) / m) snapshot
     rounds when nothing cuts it short and never more; no stream's snapshot count rises by
     more than the number of rounds, and that of a living stream by exactly that. A signal
     ends it without a verdict.
     */
    method PollUntilDone(ticks: real, m: int, weather: nat -> Weather)
      returns (calls: nat, early: bool, interrupted: bool)
      requires ticks >= 0.0 && m >= 1 && passedTicks == 0 && rounds == 0
      modifies this`state, this`passedTicks, this`streams, this`rounds
      ensures calls <= ticks.Floor + 2
      ensures rounds <= (ticks.Floor + 1) / m
      ensures !early && !interrupted ==> calls == ticks.Floor + 2 && rounds == (ticks.Floor + 1) / m
      ensures early ==> state == TestDone
      ensures interrupted ==> weather(calls).signal
      ensures forall k: nat :: k < calls ==> !weather(k).signal
      ensures |streams| == |old(streams)|
      ensures forall i: nat :: i < |streams| ==>
                && streams[i].snapshotCnt <= old(streams)[i].snapshotCnt + rounds
                && (!old(streams)[i].done && Steady(weather, i, calls) ==>
                      streams[i].snapshotCnt == old(streams)[i].snapshotCnt + rounds)
    {
      calls, early, interrupted := 0, false, false;
      var finished := false;
      var limit := ticks.Floor + 1;
      assert 0 / m == 0;
      while !finished
        invariant finished && !early && !interrupted ==> calls == limit + 1 && rounds == limit / m
        invariant early ==> state == TestDone && calls <= limit
        invariant !finished ==> calls == passedTicks <= limit && !early && !interrupted
        invariant calls <= limit + 1 && passedTicks <= limit + 1
        invariant !finished ==> rounds == passedTicks / m
        invariant rounds <= limit / m
        invariant forall k: nat :: k < calls ==> !weather(k).signal
        invariant interrupted ==> weather(calls).signal
        invariant Snapshots(old(streams), weather, calls)
        decreases limit + 1 - passedTicks, !finished
      {
        if weather(calls).signal {
          finished, interrupted := true, true;
        } else {
          var before := passedTicks;
          RoundsStep(passedTicks, m);
          if passedTicks < limit {
            RoundsGrow(passedTicks + 1, limit, m);
          }
          finished := PollOnce(ticks, m, weather, calls, old(streams));
          calls := calls + 1;
          early := finished && before < limit;
        }
      }
    }

    /** How the snapshot counts stand after `calls` polls. */
    ghost predicate Snapshots(first: seq<StreamInfo>, weather: nat -> Weather, calls: nat)
      reads this
    {
      && |streams| == |first|
      && forall i: nat :: i < |streams| ==>
           && streams[i].snapshotCnt <= first[i].snapshotCnt + rounds
           && (!first[i].done && Steady(weather, i, calls) ==>
                 streams[i].snapshotCnt == first[i].snapshotCnt + rounds && !streams[i].done)
    }

    /** One poll, with what other threads did before it. */
    method PollOnce(ticks: real, m: int, weather: nat -> Weather, calls: nat, ghost first: seq<StreamInfo>)
      returns (finished: bool)
      requires m >= 1 && Snapshots(first, weather, calls)
      modifies this`state, this`passedTicks, this`streams, this`rounds
      ensures Snapshots(first, weather, calls + 1)
      ensures var stopped := old(state) == TestDone || weather(calls).stop;
              var timeUp := old(passedTicks) as real > ticks;
              && passedTicks == (if stopped then old(passedTicks) else old(passedTicks) + 1)
              && rounds == old(rounds) + (if !stopped && !timeUp && passedTicks % m == 0 then 1 else 0)
              && (stopped || timeUp ==> finished)
              && (finished ==> stopped || timeUp || state == TestDone)
              && (stopped ==> state == TestDone)
    {
      Weathered(weather(calls));
      ghost var mid := streams;
      finished := TestFinishState(ticks, m, weather(calls).elapsed);
      forall i: nat | i < |streams| && !first[i].done && Steady(weather, i, calls + 1)
        ensures streams[i].snapshotCnt == first[i].snapshotCnt + rounds && !streams[i].done
      {
        assert Steady(weather, i, calls);
        assert !weather(calls).dead(i) && weather(calls).elapsed(i);
      }
    }

    /** The loop with the length of the test and the snapshot period it takes from the configuration. */
    method EnterSenderIntervalLoop(time: real, interval: real, resolution: real, weather: nat -> Weather)
      returns (calls: nat, m: int, early: bool, interrupted: bool)
      requires time * resolution >= 0.0 && interval * resolution >= 0.5 && passedTicks == 0 && rounds == 0
      modifies this`state, this`passedTicks, this`streams, this`rounds
      ensures m >= 1 && m as real - 0.5 <= interval * resolution < m as real + 0.5
      ensures calls <= (time * resolution).Floor + 2
      ensures rounds <= ((time * resolution).Floor + 1) / m
      ensures !early && !interrupted ==>
                calls == (time * resolution).Floor + 2 && rounds == ((time * resolution).Floor + 1) / m
      ensures early ==> state == TestDone
      ensures interrupted ==> weather(calls).signal
      ensures forall k: nat :: k < calls ==> !weather(k).signal
      ensures |streams| == |old(streams)|
      ensures forall i: nat :: i < |streams| ==>
                && streams[i].snapshotCnt <= old(streams)[i].snapshotCnt + rounds
                && (!old(streams)[i].done && Steady(weather, i, calls) ==>
                      streams[i].snapshotCnt == old(streams)[i].snapshotCnt + rounds)
    {
      m := Round(interval * resolution);
      calls, early, interrupted := PollUntilDone(time * resolution, m, weather);
    }
  }

  lemma RoundsGrow(a: nat, b: nat, m: int)
    requires a <= b && m >= 1
    ensures a / m <= b / m
  {
    if a / m > b / m {
      QuotientGrows(a, b, m);
    }
  }
}
