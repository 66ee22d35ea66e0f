/**
 * Ieee80211MgmtAPBase: what an access point does to the data frames it
 * forwards. A frame a station sent towards the distribution system is either
 * relayed back into the cell, with its toDS/fromDS bits and addresses
 * rewritten, or bridged to Ethernet; an Ethernet frame from the wired side
 * becomes an 802.11 data frame with a SNAP header heading into the cell.
 */
module MgmtAPBase {
  import opened Wrappers
  import opened MacAddresses

  /** The packet a frame encapsulates, moved unchanged between frames. */
  datatype Payload = Payload(name: string, byteLength: nat)

  /**
   * An 802.11 data frame. address1 is the receiver and address2 the
   * transmitter; snapEtherType is Some for a frame with a SNAP header
   * (Ieee80211DataFrameWithSNAP) and carries its EtherType.
   */
  datatype DataFrame = DataFrame(
    receiver: MacAddress,
    transmitter: MacAddress,
    address3: MacAddress,
    toDS: bool,
    fromDS: bool,
    snapEtherType: Option<int>,
    payload: Option<Payload>)

  /** The kinds of Ethernet frame: Ethernet II, 802.3 with SNAP, and any other class. */
  datatype EtherFrameKind =
    | EthernetII(etherType: int)
    | EtherFrameWithSnap(orgCode: int, localcode: int)
    | OtherEtherFrame(className: string)

  datatype EtherFrame = EtherFrame(dest: MacAddress, src: MacAddress, kind: EtherFrameKind, payload: Option<Payload>)

  datatype ApError =
    | UnspecifiedAddress3
    | NotSnapFrame
    | MissingPayload
    | NoEtherType(className: string)
    | EmptyEtherFrame

  /**
   * The final destination of a data frame by the IEEE 802.11 address-field
   * table: address1 when the frame leaves the distribution system or stays
   * outside it, address3 when it goes to the distribution system.
   */
  function DestinationAddress(f: DataFrame): MacAddress
  {
    if f.toDS then f.address3 else f.receiver
  }

  /**
   * The original source by the same table: address2, or address3 for a frame
   * coming from the distribution system. (The four-address case with both
   * bits set is not used here.)
   */
  function SourceAddress(f: DataFrame): MacAddress
    requires !(f.toDS && f.fromDS)
  {
    if f.fromDS then f.address3 else f.transmitter
  }

  /** A frame sent by a station to the access point. */
  predicate FromStation(f: DataFrame)
  {
    f.toDS && !f.fromDS
  }

  /**
   * The frame distributeReceivedDataFrame hands on: from the distribution
   * system, address1 set to the old address3 and address3 to the transmitter.
   */
  function Relayed(f: DataFrame): (r: DataFrame)
    ensures !r.toDS && r.fromDS
    ensures r.receiver == f.address3 && r.address3 == f.transmitter
    ensures r.transmitter == f.transmitter && r.snapEtherType == f.snapEtherType && r.payload == f.payload
  {
    f.(toDS := false, fromDS := true, receiver := f.address3, address3 := f.transmitter)
  }

  /** Relaying a station's frame back into the cell keeps its destination and its source. */
  lemma RelayKeepsEndpoints(f: DataFrame)
    requires FromStation(f)
    ensures DestinationAddress(Relayed(f)) == DestinationAddress(f)
    ensures SourceAddress(Relayed(f)) == SourceAddress(f)
  {
  }

  /** A frame object whose fields the access point updates in place. */
  class DataFrameRef {
    var frame: DataFrame

    constructor (f: DataFrame)
      ensures frame == f
    {
      frame := f;
    }
  }

  /**
   * distributeReceivedDataFrame: sets toDS and fromDS, then insists that
   * address3 is specified before shuffling the addresses.
   */
  method DistributeReceivedDataFrame(f: DataFrameRef) returns (r: Outcome<ApError>)
    modifies f
    ensures r == if IsUnspecified(old(f.frame.address3)) then Fail(UnspecifiedAddress3) else Pass
    ensures r.Pass? ==> f.frame == Relayed(old(f.frame))
    ensures r.Fail? ==> f.frame == old(f.frame).(toDS := false, fromDS := true)
  {
    f.frame := f.frame.(toDS := false);
    f.frame := f.frame.(fromDS := true);
    if IsUnspecified(f.frame.address3) {
      return Fail(UnspecifiedAddress3);
    }
    f.frame := f.frame.(receiver := f.frame.address3);
    f.frame := f.frame.(address3 := f.frame.transmitter);
    r := Pass;
  }

  /**
   * convertToEtherFrame: a SNAP data frame becomes an Ethernet II frame to
   * address3 from the transmitter, with the same EtherType and payload.
   */
  function ConvertToEtherFrame(f: DataFrame): (r: Result<EtherFrame, ApError>)
    ensures r.Success? <==> f.snapEtherType.Some? && f.payload.Some?
    ensures f.snapEtherType.None? ==> r == Failure(NotSnapFrame)
    ensures f.snapEtherType.Some? && f.payload.None? ==> r == Failure(MissingPayload)
    ensures r.Success? ==>
      r.value.dest == f.address3 && r.value.src == f.transmitter &&
      r.value.kind == EthernetII(f.snapEtherType.value) && r.value.payload == f.payload
    ensures r.Success? && FromStation(f) ==> r.value.dest == DestinationAddress(f) && r.value.src == SourceAddress(f)
  {
    match f.snapEtherType
    case None => Failure(NotSnapFrame)
    case Some(etherType) =>
      if f.payload.None? then Failure(MissingPayload)
      else Success(EtherFrame(f.address3, f.transmitter, EthernetII(etherType), f.payload))
  }

  /** The EtherType of an Ethernet frame that has one. */
  function EtherTypeOf(kind: EtherFrameKind): (t: int)
    requires !kind.OtherEtherFrame?
    ensures kind.EthernetII? ==> t == kind.etherType
    ensures kind.EtherFrameWithSnap? ==> t == kind.localcode
  {
    match kind
    case EthernetII(etherType) => etherType
    case EtherFrameWithSnap(_, localcode) => localcode
  }

  /**
   * convertFromEtherFrame: an Ethernet frame becomes a SNAP data frame from
   * the distribution system, to its destination, naming its source in
   * address3; the transmitter is left for the MAC to fill in.
   */
  function ConvertFromEtherFrame(e: EtherFrame): (r: Result<DataFrame, ApError>)
    ensures r.Success? <==> !e.kind.OtherEtherFrame? && e.payload.Some?
    ensures e.kind.OtherEtherFrame? ==> r == Failure(NoEtherType(e.kind.className))
    ensures !e.kind.OtherEtherFrame? && e.payload.None? ==> r == Failure(EmptyEtherFrame)
    ensures e.kind.EthernetII? && r.Success? ==> r.value.snapEtherType == Some(e.kind.etherType)
    ensures e.kind.EtherFrameWithSnap? && r.Success? ==> r.value.snapEtherType == Some(e.kind.localcode)
    ensures r.Success? ==>
      r.value.fromDS && !r.value.toDS && r.value.receiver == e.dest && r.value.address3 == e.src &&
      IsUnspecified(r.value.transmitter) && r.value.payload == e.payload
    ensures r.Success? ==> DestinationAddress(r.value) == e.dest && SourceAddress(r.value) == e.src
  {
    if e.kind.OtherEtherFrame? then Failure(NoEtherType(e.kind.className))
    else if e.payload.None? then Failure(EmptyEtherFrame)
    else Success(DataFrame(e.dest, UNSPECIFIED, e.src, false, true, Some(EtherTypeOf(e.kind)), e.payload))
  }

  /**
   * Bridging a frame to Ethernet and back gives a frame addressed to the
   * original address3, naming the original transmitter as its source, with
   * the same EtherType and payload: the frame relaying would produce, up to
   * the transmitter, which is left for the MAC to fill in.
   */
  lemma WirelessEthernetRoundTrip(f: DataFrame)
    requires ConvertToEtherFrame(f).Success?
    ensures var back := ConvertFromEtherFrame(ConvertToEtherFrame(f).value);
      back.Success? &&
      back.value.receiver == f.address3 && back.value.address3 == f.transmitter &&
      back.value.snapEtherType == f.snapEtherType && back.value.payload == f.payload &&
      back.value == Relayed(f).(transmitter := UNSPECIFIED)
  {
  }
}
