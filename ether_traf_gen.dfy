/**
 * EtherTrafGen: a traffic generator that, from its start time until its stop
 * time, sends bursts of data packets to one Ethernet destination, one burst
 * per send interval, and counts the packets it receives. The volatile
 * parameters (send interval, burst size), the node's status, the current
 * simulation time and the resolved destination are inputs of each call.
 */
module TrafGen {
  import opened Wrappers
  import opened MacAddresses
  import opened AppSupport

  /** A data packet sent on the out gate: the sequence number in its name, and its destination. */
  datatype DataPacket = DataPacket(seqNum: int, dest: MacAddress)

  /**
   * The packets of a burst of `n` after sequence number `last`, all to `dest`;
   * a burst size below one sends nothing.
   */
  function Burst(last: int, n: int, dest: MacAddress): (r: seq<DataPacket>)
    ensures |r| == if n < 0 then 0 else n
    ensures forall k :: 0 <= k < |r| ==> r[k].dest == dest
    decreases n
  {
    if n <= 0 then [] else Burst(last, n - 1, dest) + [DataPacket(last + n, dest)]
  }

  /** A burst numbers its packets consecutively from last + 1. */
  lemma {:induction false} BurstIsConsecutive(last: int, n: int, dest: MacAddress)
    ensures forall k :: 0 <= k < |Burst(last, n, dest)| ==> Burst(last, n, dest)[k] == DataPacket(last + k + 1, dest)
    decreases n
  {
    if n > 0 {
      BurstIsConsecutive(last, n - 1, dest);
    }
  }

  class EtherTrafGen {
    /** The destAddress parameter is non-empty. */
    const isGenerator: bool
    var startTime: int
    var stopTime: int
    var seqNum: int
    var packetsSent: int
    var packetsReceived: int
    /** timerMsg has been created (it is, at the application-layer stage, for generators). */
    var hasTimerMsg: bool
    var timer: Timer
    var destMACAddress: MacAddress

    /**
     * Every packet sent took the next sequence number, and the timer is never
     * armed at or after a non-negative stop time.
     */
    ghost predicate Valid()
      reads this
    {
      ValidStartStop(startTime, stopTime) &&
      0 <= packetsSent && packetsSent == seqNum && 0 <= packetsReceived &&
      (timer.Armed? ==> hasTimerMsg && BeforeStop(timer.time, stopTime))
    }

    /** Both initialisation stages have run. */
    ghost predicate Initialized()
      reads this
    {
      Valid() && hasTimerMsg == isGenerator
    }

    constructor (isGenerator: bool)
      ensures this.isGenerator == isGenerator && !hasTimerMsg && timer == Unarmed
    {
      this.isGenerator := isGenerator;
      hasTimerMsg := false;
      timer := Unarmed;
      destMACAddress := UNSPECIFIED;
    }

    /** initialize, local stage: resets the counters and checks the start and stop times. */
    method InitializeLocal(startTime: int, stopTime: int) returns (r: Outcome<AppError>)
      requires timer == Unarmed
      modifies this
      ensures r == if ValidStartStop(startTime, stopTime) then Pass else Fail(InvalidStartStopTimes)
      ensures this.startTime == startTime && this.stopTime == stopTime
      ensures seqNum == 0 && packetsSent == 0 && packetsReceived == 0
      ensures hasTimerMsg == old(hasTimerMsg) && timer == Unarmed && destMACAddress == old(destMACAddress)
      ensures r.Pass? ==> Valid()
    {
      seqNum := 0;
      packetsSent, packetsReceived := 0, 0;
      this.startTime, this.stopTime := startTime, stopTime;
      if stopTime >= 0 && stopTime < startTime {
        return Fail(InvalidStartStopTimes);
      }
      r := Pass;
    }

    /**
     * initialize, application-layer stage: a generator gets its timer, and
     * arms it for the first shot when the node is up.
     */
    method InitializeApplicationLayer(now: nat, status: Option<NodeState>)
      requires Valid() && !hasTimerMsg && timer == Unarmed
      modifies this
      ensures Initialized()
      ensures startTime == old(startTime) && stopTime == old(stopTime) && destMACAddress == old(destMACAddress)
      ensures seqNum == old(seqNum) && packetsSent == old(packetsSent) && packetsReceived == old(packetsReceived)
      ensures var first := FirstShot(now, startTime);
        timer == if IsNodeUp(status) && isGenerator && BeforeStop(first, stopTime) then Armed(first, Start) else Unarmed
    {
      hasTimerMsg := isGenerator;
      if IsNodeUp(status) && isGenerator {
        var r := ScheduleNextPacket(now, -1, 0);
      }
    }

    /**
     * scheduleNextPacket: previous == -1 aims the START shot at the first
     * shot time, any other value aims a NEXT shot one interval after it.
     */
    method ScheduleNextPacket(now: nat, previous: int, interval: int) returns (r: Outcome<AppError>)
      requires Valid() && hasTimerMsg
      modifies this`timer
      ensures Valid()
      ensures var next := if previous == -1 then FirstShot(now, startTime) else previous + interval;
        var kind := if previous == -1 then Start else Next;
        ArmedAs(r, timer, old(timer), Arm(old(timer), now, next, kind, stopTime))
    {
      var next, kind;
      if previous == -1 {
        next, kind := FirstShot(now, startTime), Start;
      } else {
        next, kind := previous + interval, Next;
      }
      var armed := Arm(timer, now, next, kind, stopTime);
      if armed.Failure? {
        return Fail(armed.error);
      }
      timer := armed.value;
      r := Pass;
    }

    /** cancelNextPacket: the kernel's cancelEvent refuses a timer that was never created. */
    method CancelNextPacket() returns (r: Outcome<AppError>)
      requires Valid()
      modifies this`timer
      ensures Valid()
      ensures r == if hasTimerMsg then Pass else Fail(NullTimer)
      ensures timer == if hasTimerMsg then Unarmed else old(timer)
    {
      if !hasTimerMsg {
        return Fail(NullTimer);
      }
      timer := Unarmed;
      r := Pass;
    }

    /** sendBurstPackets: n packets, each with the next sequence number. */
    method SendBurstPackets(n: int) returns (sent: seq<DataPacket>)
      requires Valid()
      modifies this`seqNum, this`packetsSent
      ensures Valid()
      ensures sent == Burst(old(seqNum), n, destMACAddress)
      ensures seqNum == old(seqNum) + |sent| && packetsSent == old(packetsSent) + |sent|
    {
      sent := [];
      var i := 0;
      while i < n
        invariant 0 <= i <= if n < 0 then 0 else n
        invariant sent == Burst(old(seqNum), i, destMACAddress) && |sent| == i
        invariant seqNum == old(seqNum) + i && packetsSent == old(packetsSent) + i
      {
        seqNum := seqNum + 1;
        sent := sent + [DataPacket(seqNum, destMACAddress)];
        packetsSent := packetsSent + 1;
        i := i + 1;
      }
    }

    method ReceivePacket()
      requires Valid()
      modifies this`packetsReceived
      ensures Valid() && packetsReceived == old(packetsReceived) + 1
    {
      packetsReceived := packetsReceived + 1;
    }

    /**
     * handleMessage. The kernel delivers the timer at its time, which leaves it
     * unarmed. A START shot resolves the destination and stops there when none
     * is given; otherwise a burst goes out and the next shot is aimed one
     * interval after now.
     */
    method HandleMessage(msg: Message, now: nat, status: Option<NodeState>, resolvedDest: MacAddress,
                         burstSize: int, interval: int)
      returns (r: Outcome<AppError>, sent: seq<DataPacket>)
      requires Initialized()
      requires msg == TimerMessage ==> timer.Armed? && timer.time == now
      modifies this
      ensures Initialized()
      ensures startTime == old(startTime) && stopTime == old(stopTime) && hasTimerMsg == old(hasTimerMsg)
      ensures !IsNodeUp(status) ==>
        r == Fail(NotRunning) && sent == [] &&
        seqNum == old(seqNum) && packetsSent == old(packetsSent) && packetsReceived == old(packetsReceived) &&
        destMACAddress == old(destMACAddress) && timer == (if msg == TimerMessage then Unarmed else old(timer))
      ensures IsNodeUp(status) && msg == PacketMessage ==>
        r == Pass && sent == [] && packetsReceived == old(packetsReceived) + 1 &&
        seqNum == old(seqNum) && packetsSent == old(packetsSent) &&
        destMACAddress == old(destMACAddress) && timer == old(timer)
      ensures IsNodeUp(status) && msg == TimerMessage && old(timer).kind == Start && IsUnspecified(resolvedDest) ==>
        r == Pass && sent == [] && timer == Unarmed && destMACAddress == resolvedDest &&
        seqNum == old(seqNum) && packetsSent == old(packetsSent) && packetsReceived == old(packetsReceived)
      ensures IsNodeUp(status) && msg == TimerMessage && !(old(timer).kind == Start && IsUnspecified(resolvedDest)) ==>
        destMACAddress == (if old(timer).kind == Start then resolvedDest else old(destMACAddress)) &&
        sent == Burst(old(seqNum), burstSize, destMACAddress) &&
        seqNum == old(seqNum) + |sent| && packetsSent == old(packetsSent) + |sent| &&
        packetsReceived == old(packetsReceived) &&
        ArmedAs(r, timer, Unarmed, Arm(Unarmed, now, now + interval, Next, stopTime))
    {
      sent := [];
      var kind := Start;
      if msg == TimerMessage {
        kind := timer.kind;
        timer := Unarmed;
      }
      if !IsNodeUp(status) {
        return Fail(NotRunning), [];
      }
      if msg == TimerMessage {
        if kind == Start {
          destMACAddress := resolvedDest;
          if IsUnspecified(destMACAddress) {
            return Pass, [];
          }
        }
        sent := SendBurstPackets(burstSize);
        r := ScheduleNextPacket(now, now, interval);
      } else {
        ReceivePacket();
        r := Pass;
      }
    }

    /**
     * handleOperationStage: start at the application-layer stage aims a START
     * shot (generators only); shutdown at the application-layer stage and
     * crash at the crash stage cancel the timer; other stages do nothing; any
     * other operation is an error.
     */
    method HandleOperationStage(operation: LifecycleOperation, stage: Stage, now: nat) returns (r: Outcome<AppError>)
      requires Initialized()
      modifies this`timer
      ensures Initialized()
      ensures operation.NodeStartOperation? && stage == StageApplicationLayer && isGenerator ==>
        ArmedAs(r, timer, old(timer), Arm(old(timer), now, FirstShot(now, startTime), Start, stopTime))
      ensures (operation.NodeShutdownOperation? && stage == StageApplicationLayer) ||
              (operation.NodeCrashOperation? && stage == StageCrash) ==>
        r == (if hasTimerMsg then Pass else Fail(NullTimer)) &&
        timer == (if hasTimerMsg then Unarmed else old(timer))
      ensures operation.OtherOperation? ==> r == Fail(UnsupportedOperation(operation.className)) && timer == old(timer)
      ensures operation.NodeStartOperation? && !(stage == StageApplicationLayer && isGenerator) ==>
        r == Pass && timer == old(timer)
      ensures operation.NodeShutdownOperation? && stage != StageApplicationLayer ==> r == Pass && timer == old(timer)
      ensures operation.NodeCrashOperation? && stage != StageCrash ==> r == Pass && timer == old(timer)
    {
      r := Pass;
      match operation
      case NodeStartOperation =>
        if stage == StageApplicationLayer && isGenerator {
          r := ScheduleNextPacket(now, -1, 0);
        }
      case NodeShutdownOperation =>
        if stage == StageApplicationLayer {
          r := CancelNextPacket();
        }
      case NodeCrashOperation =>
        if stage == StageCrash {
          r := CancelNextPacket();
        }
      case OtherOperation(className) =>
        r := Fail(UnsupportedOperation(className));
    }
  }
}
