/**
 * BasicRateSelection: chooses the transmission mode of each outgoing IEEE
 * 802.11 frame. Data and management frames go out at a fixed data mode (or at
 * the rate controller's current rate), multicast frames at a fixed multicast
 * mode, and ACKs and other response frames at the rate of the frame they
 * answer when that rate is mandatory, stepping down to the next slower
 * mandatory rate otherwise; this is a simplified form of the control-response
 * rate rule of section 9.7.6.5 of IEEE 802.11-2012.
 */
module RateSelection {
  import opened Wrappers
  import opened Ieee80211ModeSet

  /** The bitrate setting that asks for the catalogue's default mode. */
  const UNSET_BITRATE: int := -1

  datatype ConfigError = UnknownBitrate(bitrate: int)

  /** check_and_cast failures on a frame's control info. */
  datatype SelectionError = MissingReceptionIndication | MissingTransmissionRequest

  datatype FrameType = DataFrame | ManagementFrame | AckFrame | RtsFrame | CtsFrame

  /**
   * The control info a frame carries: the mode a received frame arrived at, or
   * the mode chosen for an outgoing frame.
   */
  datatype ControlInfo = NoControlInfo | ReceptionIndication(mode: Mode) | TransmissionRequest(mode: Mode)

  datatype Frame = Frame(frameType: FrameType, controlInfo: ControlInfo)

  /** A configured bitrate that the setup can turn into a mode. */
  predicate Resolvable(ms: ModeSet, bitrate: int)
  {
    bitrate == UNSET_BITRATE || HasBitrate(ms, bitrate)
  }

  /**
   * One line of initialize: the catalogue default when the setting is the
   * sentinel -1, otherwise the catalogue mode with exactly that bitrate; a
   * bitrate missing from the catalogue is a configuration error.
   */
  function ResolveBitrate(ms: ModeSet, bitrate: int, default: Mode): (r: Result<Mode, ConfigError>)
    ensures r.Success? <==> Resolvable(ms, bitrate)
    ensures bitrate == UNSET_BITRATE ==> r == Success(default)
    ensures bitrate != UNSET_BITRATE && r.Success? ==> Contains(ms, r.value) && r.value.bitrate == bitrate
    ensures r.Failure? ==> r.error == UnknownBitrate(bitrate)
  {
    if bitrate == UNSET_BITRATE then Success(default)
    else if HasBitrate(ms, bitrate) then Success(GetMode(ms, bitrate))
    else Failure(UnknownBitrate(bitrate))
  }

  /**
   * The rule shared by ACKs and response frames: answer at the triggering
   * frame's mode if it is mandatory, else at the next slower mandatory mode,
   * else at the control mode.
   */
  function ResponseMode(ms: ModeSet, controlMode: Mode, frameMode: Mode): (r: Mode)
    requires Sorted(ms)
    ensures IsMandatory(ms, frameMode) ==> r == frameMode
    ensures !IsMandatory(ms, frameMode) && (exists e :: e in ms && e.isMandatory && e.mode.bitrate < frameMode.bitrate) ==>
      IsMandatory(ms, r) && r.bitrate < frameMode.bitrate &&
      forall e :: e in ms && e.isMandatory && e.mode.bitrate < frameMode.bitrate ==> e.mode.bitrate <= r.bitrate
    ensures !IsMandatory(ms, frameMode) && (forall e :: e in ms && e.isMandatory ==> frameMode.bitrate <= e.mode.bitrate) ==>
      r == controlMode
    ensures IsMandatory(ms, r) || r == controlMode
    ensures r.bitrate <= frameMode.bitrate || r == controlMode
    ensures Contains(ms, controlMode) ==> Contains(ms, r)
  {
    if IsMandatory(ms, frameMode) then frameMode
    else
      match SlowerMandatoryMode(ms, frameMode)
      case Some(m) => m
      case None => controlMode
  }

  /**
   * For a frame whose mode is in the catalogue, the response mode is the
   * fastest mandatory mode not faster than the frame's, and the control mode
   * when there is no such mandatory mode.
   */
  lemma ResponseModeIsHighestBasicRateNotAbove(ms: ModeSet, controlMode: Mode, frameMode: Mode)
    requires Sorted(ms) && Contains(ms, frameMode)
    ensures var r := ResponseMode(ms, controlMode, frameMode);
      if exists e :: e in ms && e.isMandatory && e.mode.bitrate <= frameMode.bitrate then
        IsMandatory(ms, r) && r.bitrate <= frameMode.bitrate &&
        forall e :: e in ms && e.isMandatory && e.mode.bitrate <= frameMode.bitrate ==> e.mode.bitrate <= r.bitrate
      else
        r == controlMode
  {
    // no mandatory entry other than the frame's own can share its bitrate, by the strict order of Sorted
  }

  /**
   * A rate-control algorithm (IRateControl) seen through its interface: it is
   * primed with the catalogue and an initial mode and reports its current rate.
   * How it adapts that rate afterwards is not part of this model.
   */
  class RateControl {
    var modeSet: ModeSet
    var currentMode: Mode

    constructor (ms: ModeSet, mode: Mode)
      ensures modeSet == ms && currentMode == mode
    {
      modeSet := ms;
      currentMode := mode;
    }

    method Initialize(ms: ModeSet, initialMode: Mode)
      modifies this
      ensures modeSet == ms && currentMode == initialMode
    {
      modeSet := ms;
      currentMode := initialMode;
    }
  }

  class BasicRateSelection {
    var modeSet: ModeSet
    var controlFrameMode: Mode
    var multicastFrameMode: Mode
    var dataFrameMode: Mode
    var slowestMandatoryMode: Mode
    var rateControl: RateControl?

    /** After a successful initialize every fixed mode is a catalogue mode. */
    ghost predicate Valid()
      reads this
    {
      Ieee80211ModeSet.Valid(modeSet) &&
      Contains(modeSet, controlFrameMode) &&
      Contains(modeSet, multicastFrameMode) &&
      Contains(modeSet, dataFrameMode) &&
      slowestMandatoryMode == SlowestMandatoryMode(modeSet)
    }

    constructor ()
      ensures rateControl == null
    {
      rateControl := null;
    }

    /**
     * initialize: resolves the control, multicast and data bitrates in that
     * order; the first one missing from the catalogue aborts the setup.
     */
    method Initialize(ms: ModeSet, controlBitrate: int, multicastBitrate: int, dataBitrate: int)
      returns (result: Outcome<ConfigError>)
      requires Ieee80211ModeSet.Valid(ms)
      modifies this
      ensures modeSet == ms && rateControl == old(rateControl)
      ensures result.Pass? <==>
        Resolvable(ms, controlBitrate) && Resolvable(ms, multicastBitrate) && Resolvable(ms, dataBitrate)
      ensures !Resolvable(ms, controlBitrate) ==> result == Fail(UnknownBitrate(controlBitrate))
      ensures Resolvable(ms, controlBitrate) && !Resolvable(ms, multicastBitrate) ==>
        result == Fail(UnknownBitrate(multicastBitrate))
      ensures Resolvable(ms, controlBitrate) && Resolvable(ms, multicastBitrate) && !Resolvable(ms, dataBitrate) ==>
        result == Fail(UnknownBitrate(dataBitrate))
      ensures result.Pass? ==> Valid()
      ensures result.Pass? ==>
        controlFrameMode == ResolveBitrate(ms, controlBitrate, SlowestMandatoryMode(ms)).value &&
        multicastFrameMode == ResolveBitrate(ms, multicastBitrate, FastestMandatoryMode(ms)).value &&
        dataFrameMode == ResolveBitrate(ms, dataBitrate, FastestMode(ms)).value
    {
      modeSet := ms;
      var control := ResolveBitrate(ms, controlBitrate, SlowestMandatoryMode(ms));
      if control.Failure? {
        return Fail(control.error);
      }
      controlFrameMode := control.value;
      var multicast := ResolveBitrate(ms, multicastBitrate, FastestMandatoryMode(ms));
      if multicast.Failure? {
        return Fail(multicast.error);
      }
      multicastFrameMode := multicast.value;
      var data := ResolveBitrate(ms, dataBitrate, FastestMode(ms));
      if data.Failure? {
        return Fail(data.error);
      }
      dataFrameMode := data.value;
      slowestMandatoryMode := SlowestMandatoryMode(ms);
      result := Pass;
    }

    /**
     * setRateControl: stores the controller and, when there is one, primes it
     * with the catalogue and the data mode, so that its first rate is the data mode.
     */
    method SetRateControl(rc: RateControl?)
      requires Valid()
      modifies this, rc
      ensures Valid() && rateControl == rc
      ensures modeSet == old(modeSet) && controlFrameMode == old(controlFrameMode)
      ensures multicastFrameMode == old(multicastFrameMode) && dataFrameMode == old(dataFrameMode)
      ensures slowestMandatoryMode == old(slowestMandatoryMode)
      ensures rc != null ==> rc.modeSet == modeSet && rc.currentMode == dataFrameMode
      ensures forall f :: GetModeForUnicastDataOrMgmtFrame(f) == dataFrameMode
    {
      rateControl := rc;
      if rc != null {
        rc.Initialize(modeSet, dataFrameMode);
      }
    }

    /** getSlowestMandatoryMode: the catalogue's slowest mandatory mode, kept from initialize. */
    function GetSlowestMandatoryMode(): (m: Mode)
      reads this
      requires Valid()
      ensures IsMandatory(modeSet, m)
      ensures forall e :: e in modeSet && e.isMandatory ==> m.bitrate <= e.mode.bitrate
    {
      slowestMandatoryMode
    }

    /** The unicast mode: the controller's current rate if one is attached, else the data mode. */
    function GetModeForUnicastDataOrMgmtFrame(frame: Frame): (m: Mode)
      reads this, rateControl
      ensures rateControl != null ==> m == rateControl.currentMode
      ensures rateControl == null ==> m == dataFrameMode
    {
      if rateControl != null then rateControl.currentMode else dataFrameMode
    }

    /** The multicast mode does not depend on the frame. */
    function GetModeForMulticastDataOrMgmtFrame(frame: Frame): (m: Mode)
      reads this
      requires Valid()
      ensures m == multicastFrameMode && Contains(modeSet, m)
    {
      multicastFrameMode
    }

    /**
     * The mode of a control frame: an ACK for a present data frame follows the
     * response rule applied to the data frame's reception mode; every other
     * control frame, and an ACK with no data frame, uses the control mode.
     */
    function GetModeForControlFrame(dataFrame: Option<Frame>, controlFrame: Frame): (r: Result<Mode, SelectionError>)
      reads this
      requires Valid()
      ensures controlFrame.frameType != AckFrame || dataFrame.None? ==> r == Success(controlFrameMode)
      ensures controlFrame.frameType == AckFrame && dataFrame.Some? ==>
        (r.Failure? <==> !dataFrame.value.controlInfo.ReceptionIndication?)
      ensures controlFrame.frameType == AckFrame && dataFrame.Some? && dataFrame.value.controlInfo.ReceptionIndication? ==>
        r == Success(ResponseMode(modeSet, controlFrameMode, dataFrame.value.controlInfo.mode))
      ensures r.Failure? ==> r.error == MissingReceptionIndication
      ensures r.Success? ==> Contains(modeSet, r.value) && (IsMandatory(modeSet, r.value) || r.value == controlFrameMode)
    {
      if controlFrame.frameType == AckFrame && dataFrame.Some? then
        match dataFrame.value.controlInfo
        case ReceptionIndication(dataMode) => Success(ResponseMode(modeSet, controlFrameMode, dataMode))
        case _ => Failure(MissingReceptionIndication)
      else
        Success(controlFrameMode)
    }

    /**
     * The mode of a response to an outgoing frame: the response rule applied to
     * the frame's transmission-request mode; no frame gives the control mode.
     */
    function GetResponseControlFrameMode(frame: Option<Frame>): (r: Result<Mode, SelectionError>)
      reads this
      requires Valid()
      ensures frame.None? ==> r == Success(controlFrameMode)
      ensures frame.Some? ==> (r.Failure? <==> !frame.value.controlInfo.TransmissionRequest?)
      ensures frame.Some? && frame.value.controlInfo.TransmissionRequest? ==>
        r == Success(ResponseMode(modeSet, controlFrameMode, frame.value.controlInfo.mode))
      ensures r.Failure? ==> r.error == MissingTransmissionRequest
      ensures r.Success? ==> Contains(modeSet, r.value) && (IsMandatory(modeSet, r.value) || r.value == controlFrameMode)
    {
      if frame.Some? then
        match frame.value.controlInfo
        case TransmissionRequest(frameMode) => Success(ResponseMode(modeSet, controlFrameMode, frameMode))
        case _ => Failure(MissingTransmissionRequest)
      else
        Success(controlFrameMode)
    }
  }

  /** The catalogue of 802.11b: 1 and 2 Mbps mandatory, 5.5 and 11 Mbps optional. */
  function DsssCatalogue(): (ms: ModeSet)
    ensures Ieee80211ModeSet.Valid(ms)
  {
    [Entry(Mode("DSSS-1Mbps", 1000000), true),
     Entry(Mode("DSSS-2Mbps", 2000000), true),
     Entry(Mode("HR/DSSS-5.5Mbps", 5500000), false),
     Entry(Mode("HR/DSSS-11Mbps", 11000000), false)]
  }

  /** With the control bitrate unset, the 802.11b control mode is 1 Mbps. */
  lemma DsssControlModeIsSlowestMandatory()
    ensures ResolveBitrate(DsssCatalogue(), UNSET_BITRATE, SlowestMandatoryMode(DsssCatalogue()))
      == Success(Mode("DSSS-1Mbps", 1000000))
  {
    var ms := DsssCatalogue();
    var slowest := SlowestMandatoryMode(ms);
    assert ms[0] in ms;
    var e :| e in ms && e.mode == slowest && e.isMandatory;
    BitrateIdentifiesEntry(ms, e, ms[0]);
  }

  /**
   * An ACK for an 11 Mbps frame goes out at 2 Mbps, the nearest slower
   * mandatory mode, and not at the slowest one.
   */
  lemma DsssAckForElevenMbps(controlMode: Mode)
    ensures ResponseMode(DsssCatalogue(), controlMode, Mode("HR/DSSS-11Mbps", 11000000)) == Mode("DSSS-2Mbps", 2000000)
  {
    // 11 Mbps is optional, and 2 Mbps is the fastest mandatory mode below it
  }

  /** An ACK for a 1 Mbps frame, a mandatory mode, goes out at 1 Mbps. */
  lemma DsssAckForOneMbps(controlMode: Mode)
    ensures ResponseMode(DsssCatalogue(), controlMode, Mode("DSSS-1Mbps", 1000000)) == Mode("DSSS-1Mbps", 1000000)
  {
    assert DsssCatalogue()[0] in DsssCatalogue();
  }

  /**
   * The control mode is not a floor: with the control mode configured at
   * 2 Mbps, an ACK for a 1 Mbps frame goes out at 1 Mbps.
   */
  lemma DsssAckMayBeSlowerThanControlMode()
    ensures var control := Mode("DSSS-2Mbps", 2000000);
      var ack := ResponseMode(DsssCatalogue(), control, Mode("DSSS-1Mbps", 1000000));
      ack.bitrate < control.bitrate
  {
    assert DsssCatalogue()[0] in DsssCatalogue();
  }

  /** A data bitrate of 5.5 Mbps against the catalogue without 5.5 Mbps fails the setup. */
  lemma DsssMissingBitrateFails()
    ensures var ms := DsssCatalogue();
      var without := [ms[0], ms[1], ms[3]];
      ResolveBitrate(without, 5500000, FastestMode(without)) == Failure(UnknownBitrate(5500000))
  {
    var ms := DsssCatalogue();
    var without := [ms[0], ms[1], ms[3]];
    assert Ieee80211ModeSet.Valid(without) by {
      assert ms[0] in without;
    }
    forall e | e in without
      ensures e.mode.bitrate != 5500000
    {
      var k :| 0 <= k < |without| && without[k] == e;
    }
  }
}
