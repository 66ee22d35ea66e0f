/**
 * What the two Ethernet traffic applications share: the node status they
 * consult, the lifecycle operations they react to, their send timer, and the
 * simulation kernel's rules for arming and cancelling that timer.
 * Simulation time is fixed-point, so times are integers here.
 */
module AppSupport {
  import opened Wrappers

  datatype NodeState = Up | Down | GoingUp | GoingDown

  /** isNodeUp: a node without a status module counts as up. */
  predicate IsNodeUp(status: Option<NodeState>): (up: bool)
    ensures status.None? ==> up
    ensures status.Some? ==> (up <==> status.value == Up)
  {
    status.None? || status.value == Up
  }

  datatype LifecycleOperation =
    | NodeStartOperation
    | NodeShutdownOperation
    | NodeCrashOperation
    | OtherOperation(className: string)

  /** The stages of the lifecycle operations, by name. */
  datatype Stage =
    | StageLocal
    | StagePhysicalLayer
    | StageLinkLayer
    | StageNetworkLayer
    | StageTransportLayer
    | StageApplicationLayer
    | StageCrash
    | StageLast

  /** A message delivered to the application: its own timer, or a packet from below. */
  datatype Message = TimerMessage | PacketMessage

  datatype TimerKind = Start | Next

  /** The send timer (timerMsg): not scheduled, or scheduled at a time with a kind. */
  datatype Timer = Unarmed | Armed(time: int, kind: TimerKind)

  datatype AppError =
    | InvalidStartStopTimes
    | NotRunning
    | UnsupportedOperation(className: string)
    | ScheduledInPast
    | AlreadyScheduled
    | NullTimer

  /** The start/stop check of initialize: a non-negative stop time may not precede the start time. */
  function ValidStartStop(startTime: int, stopTime: int): (ok: bool)
    ensures ok <==> stopTime < 0 || startTime <= stopTime
  {
    !(stopTime >= 0 && stopTime < startTime)
  }

  /** A negative stop time means "never stop". */
  predicate BeforeStop(t: int, stopTime: int): (before: bool)
    ensures stopTime < 0 ==> before
    ensures stopTime >= 0 ==> (before <==> t < stopTime)
  {
    stopTime < 0 || t < stopTime
  }

  /** The first shot: at the start time, or now if the start time has passed. */
  function FirstShot(now: int, startTime: int): (t: int)
    ensures t >= now && t >= startTime
    ensures t == now || t == startTime
  {
    if now <= startTime then startTime else now
  }

  /**
   * The tail of scheduleNextPacket: the timer takes the new kind and is armed
   * at `next` only when `next` is before the stop time. Arming follows the
   * kernel's scheduleAt, which refuses a time in the past and a timer that is
   * already armed.
   */
  function Arm(timer: Timer, now: int, next: int, kind: TimerKind, stopTime: int): (r: Result<Timer, AppError>)
    ensures r.Failure? <==> BeforeStop(next, stopTime) && (next < now || timer.Armed?)
    ensures r.Failure? ==> r.error == (if next < now then ScheduledInPast else AlreadyScheduled)
    ensures r.Success? && BeforeStop(next, stopTime) ==> r.value == Armed(next, kind)
    ensures !BeforeStop(next, stopTime) ==>
      r.Success? && (r.value.Armed? <==> timer.Armed?) && (timer.Armed? ==> r.value == Armed(timer.time, kind))
    ensures r.Success? && r.value.Armed? ==>
      r.value.kind == kind && (BeforeStop(r.value.time, stopTime) || (timer.Armed? && r.value.time == timer.time))
  {
    if BeforeStop(next, stopTime) then
      if next < now then Failure(ScheduledInPast)
      else if timer.Armed? then Failure(AlreadyScheduled)
      else Success(Armed(next, kind))
    else if timer.Armed? then
      Success(Armed(timer.time, kind))
    else
      Success(Unarmed)
  }

  /** The state a method leaves the timer in after calling Arm, and the outcome it reports. */
  ghost predicate ArmedAs(r: Outcome<AppError>, timer: Timer, before: Timer, a: Result<Timer, AppError>)
  {
    if a.Success? then r == Pass && timer == a.value else r == Fail(a.error) && timer == before
  }
}
