/**
 * EtherAppClient: a request generator that, from its start time until its
 * stop time, sends one request to an Ethernet destination per send interval,
 * numbering the requests, and counts the replies it receives. The volatile
 * send interval, the node's status, the current simulation time and the
 * resolved destination are inputs of each call.
 */
module AppClient {
  import opened Wrappers
  import opened MacAddresses
  import opened AppSupport

  /** A request (EtherAppReq) sent on the out gate: its request id and destination. */
  datatype Request = Request(requestId: int, dest: MacAddress)

  /**
   * scheduleNextPacket's aim: a START shot at the first shot time, or a NEXT
   * shot one interval after now.
   */
  function NextShot(start: bool, now: int, startTime: int, interval: int): (shot: (int, TimerKind))
    ensures start ==> shot.1 == Start && shot.0 >= now && shot.0 >= startTime && (shot.0 == now || shot.0 == startTime)
    ensures !start ==> shot.1 == Next && shot.0 - now == interval
  {
    if start then (FirstShot(now, startTime), Start) else (now + interval, Next)
  }

  class EtherAppClient {
    /** The destAddress parameter is non-empty. */
    const isGenerator: bool
    var startTime: int
    var stopTime: int
    var seqNum: int
    var packetsSent: int
    var packetsReceived: int
    /** timerMsg has been created (it is, at the application-layer stage, for generators). */
    var hasTimerMsg: bool
    var timer: Timer
    var destMACAddress: MacAddress

    /**
     * Every request sent took the next sequence number as its id, and the timer
     * is never armed at or after a non-negative stop time.
     */
    ghost predicate Valid()
      reads this
    {
      ValidStartStop(startTime, stopTime) &&
      0 <= packetsSent && packetsSent == seqNum && 0 <= packetsReceived &&
      (timer.Armed? ==> hasTimerMsg && BeforeStop(timer.time, stopTime))
    }

    /** Both initialisation stages have run. */
    ghost predicate Initialized()
      reads this
    {
      Valid() && hasTimerMsg == isGenerator
    }

    constructor (isGenerator: bool)
      ensures this.isGenerator == isGenerator && !hasTimerMsg && timer == Unarmed
    {
      this.isGenerator := isGenerator;
      hasTimerMsg := false;
      timer := Unarmed;
      destMACAddress := UNSPECIFIED;
    }

    /** initialize, local stage: resets the counters and checks the start and stop times. */
    method InitializeLocal(startTime: int, stopTime: int) returns (r: Outcome<AppError>)
      requires timer == Unarmed
      modifies this
      ensures r == if ValidStartStop(startTime, stopTime) then Pass else Fail(InvalidStartStopTimes)
      ensures this.startTime == startTime && this.stopTime == stopTime
      ensures seqNum == 0 && packetsSent == 0 && packetsReceived == 0
      ensures hasTimerMsg == old(hasTimerMsg) && timer == Unarmed && destMACAddress == old(destMACAddress)
      ensures r.Pass? ==> Valid()
    {
      seqNum := 0;
      packetsSent, packetsReceived := 0, 0;
      this.startTime, this.stopTime := startTime, stopTime;
      if stopTime >= 0 && stopTime < startTime {
        return Fail(InvalidStartStopTimes);
      }
      r := Pass;
    }

    /**
     * initialize, application-layer stage: a generator gets its timer, and
     * arms it for the first shot when the node is up.
     */
    method InitializeApplicationLayer(now: nat, status: Option<NodeState>)
      requires Valid() && !hasTimerMsg && timer == Unarmed
      modifies this
      ensures Initialized()
      ensures startTime == old(startTime) && stopTime == old(stopTime) && destMACAddress == old(destMACAddress)
      ensures seqNum == old(seqNum) && packetsSent == old(packetsSent) && packetsReceived == old(packetsReceived)
      ensures var first := FirstShot(now, startTime);
        timer == if IsNodeUp(status) && isGenerator && BeforeStop(first, stopTime) then Armed(first, Start) else Unarmed
    {
      hasTimerMsg := isGenerator;
      if IsNodeUp(status) && isGenerator {
        var r := ScheduleNextPacket(true, now, 0);
      }
    }

    /** scheduleNextPacket: aims the shot NextShot gives and arms it if it is before the stop time. */
    method ScheduleNextPacket(start: bool, now: nat, interval: int) returns (r: Outcome<AppError>)
      requires Valid() && hasTimerMsg
      modifies this`timer
      ensures Valid()
      ensures var (next, kind) := NextShot(start, now, startTime, interval);
        ArmedAs(r, timer, old(timer), Arm(old(timer), now, next, kind, stopTime))
    {
      var (next, kind) := NextShot(start, now, startTime, interval);
      var armed := Arm(timer, now, next, kind, stopTime);
      if armed.Failure? {
        return Fail(armed.error);
      }
      timer := armed.value;
      r := Pass;
    }

    /** cancelNextPacket: does nothing when the timer was never created. */
    method CancelNextPacket()
      requires Valid()
      modifies this`timer
      ensures Valid()
      ensures timer == if hasTimerMsg then Unarmed else old(timer)
    {
      if hasTimerMsg {
        timer := Unarmed;
      }
    }

    /** sendPacket: the request takes the next sequence number as its id. */
    method SendPacket() returns (sent: Request)
      requires Valid()
      modifies this`seqNum, this`packetsSent
      ensures Valid()
      ensures seqNum == old(seqNum) + 1 && packetsSent == old(packetsSent) + 1
      ensures sent == Request(seqNum, destMACAddress)
    {
      seqNum := seqNum + 1;
      sent := Request(seqNum, destMACAddress);
      packetsSent := packetsSent + 1;
    }

    method ReceivePacket()
      requires Valid()
      modifies this`packetsReceived
      ensures Valid() && packetsReceived == old(packetsReceived) + 1
    {
      packetsReceived := packetsReceived + 1;
    }

    /**
     * handleMessage. The kernel delivers the timer at its time, which leaves it
     * unarmed. A START shot resolves the destination and stops there when none
     * is given; otherwise one request goes out and a NEXT shot is aimed.
     */
    method HandleMessage(msg: Message, now: nat, status: Option<NodeState>, resolvedDest: MacAddress, interval: int)
      returns (r: Outcome<AppError>, sent: Option<Request>)
      requires Initialized()
      requires msg == TimerMessage ==> timer.Armed? && timer.time == now
      modifies this
      ensures Initialized()
      ensures startTime == old(startTime) && stopTime == old(stopTime) && hasTimerMsg == old(hasTimerMsg)
      ensures !IsNodeUp(status) ==>
        r == Fail(NotRunning) && sent == None &&
        seqNum == old(seqNum) && packetsSent == old(packetsSent) && packetsReceived == old(packetsReceived) &&
        destMACAddress == old(destMACAddress) && timer == (if msg == TimerMessage then Unarmed else old(timer))
      ensures IsNodeUp(status) && msg == PacketMessage ==>
        r == Pass && sent == None && packetsReceived == old(packetsReceived) + 1 &&
        seqNum == old(seqNum) && packetsSent == old(packetsSent) &&
        destMACAddress == old(destMACAddress) && timer == old(timer)
      ensures IsNodeUp(status) && msg == TimerMessage && old(timer).kind == Start && IsUnspecified(resolvedDest) ==>
        r == Pass && sent == None && timer == Unarmed && destMACAddress == resolvedDest &&
        seqNum == old(seqNum) && packetsSent == old(packetsSent) && packetsReceived == old(packetsReceived)
      ensures IsNodeUp(status) && msg == TimerMessage && !(old(timer).kind == Start && IsUnspecified(resolvedDest)) ==>
        destMACAddress == (if old(timer).kind == Start then resolvedDest else old(destMACAddress)) &&
        seqNum == old(seqNum) + 1 && packetsSent == old(packetsSent) + 1 &&
        packetsReceived == old(packetsReceived) &&
        sent == Some(Request(seqNum, destMACAddress)) &&
        ArmedAs(r, timer, Unarmed, Arm(Unarmed, now, now + interval, Next, stopTime))
    {
      sent := None;
      var kind := Start;
      if msg == TimerMessage {
        kind := timer.kind;
        timer := Unarmed;
      }
      if !IsNodeUp(status) {
        return Fail(NotRunning), None;
      }
      if msg == TimerMessage {
        if kind == Start {
          destMACAddress := resolvedDest;
          if IsUnspecified(destMACAddress) {
            return Pass, None;
          }
        }
        var request := SendPacket();
        sent := Some(request);
        r := ScheduleNextPacket(false, now, interval);
      } else {
        ReceivePacket();
        r := Pass;
      }
    }

    /**
     * handleOperationStage: start at the application-layer stage aims a START
     * shot (generators only); shutdown at the application-layer stage and
     * crash at the crash stage cancel the timer; other stages do nothing; any
     * other operation is an error.
     */
    method HandleOperationStage(operation: LifecycleOperation, stage: Stage, now: nat) returns (r: Outcome<AppError>)
      requires Initialized()
      modifies this`timer
      ensures Initialized()
      ensures operation.NodeStartOperation? && stage == StageApplicationLayer && isGenerator ==>
        ArmedAs(r, timer, old(timer), Arm(old(timer), now, FirstShot(now, startTime), Start, stopTime))
      ensures (operation.NodeShutdownOperation? && stage == StageApplicationLayer) ||
              (operation.NodeCrashOperation? && stage == StageCrash) ==>
        r == Pass && timer == (if hasTimerMsg then Unarmed else old(timer))
      ensures operation.OtherOperation? ==> r == Fail(UnsupportedOperation(operation.className)) && timer == old(timer)
      ensures operation.NodeStartOperation? && !(stage == StageApplicationLayer && isGenerator) ==>
        r == Pass && timer == old(timer)
      ensures operation.NodeShutdownOperation? && stage != StageApplicationLayer ==> r == Pass && timer == old(timer)
      ensures operation.NodeCrashOperation? && stage != StageCrash ==> r == Pass && timer == old(timer)
    {
      r := Pass;
      match operation
      case NodeStartOperation =>
        if stage == StageApplicationLayer && isGenerator {
          r := ScheduleNextPacket(true, now, 0);
        }
      case NodeShutdownOperation =>
        if stage == StageApplicationLayer {
          CancelNextPacket();
        }
      case NodeCrashOperation =>
        if stage == StageCrash {
          CancelNextPacket();
        }
      case OtherOperation(className) =>
        r := Fail(UnsupportedOperation(className));
    }
  }
}
