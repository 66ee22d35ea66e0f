/**
 * The catalogue of IEEE 802.11 transmission modes (Ieee80211ModeSet) that the
 * rate selection consults. The catalogue itself is built elsewhere from a named
 * profile; here it is an abstract sequence of entries, each a mode with its net
 * bitrate and a flag saying whether every station must support it, sorted by
 * strictly increasing bitrate.
 */
module Ieee80211ModeSet {
  import opened Wrappers

  /** A transmission mode: an opaque modulation name and its net bitrate in bits per second. */
  datatype Mode = Mode(name: string, bitrate: int)

  /** One catalogue entry: a mode and whether it is mandatory (a basic rate). */
  datatype Entry = Entry(mode: Mode, isMandatory: bool)

  type ModeSet = seq<Entry>

  /** Entries are keyed by bitrate and ordered from slowest to fastest. */
  predicate Sorted(ms: ModeSet)
  {
    forall i, j :: 0 <= i < j < |ms| ==> ms[i].mode.bitrate < ms[j].mode.bitrate
  }

  predicate HasMandatory(ms: ModeSet)
  {
    exists e :: e in ms && e.isMandatory
  }

  /**
   * A well-formed catalogue: sorted, and holding at least one mandatory mode
   * (which also makes it non-empty).
   */
  predicate Valid(ms: ModeSet)
  {
    Sorted(ms) && HasMandatory(ms)
  }

  predicate Contains(ms: ModeSet, m: Mode)
  {
    exists e :: e in ms && e.mode == m
  }

  predicate HasBitrate(ms: ModeSet, bps: int)
  {
    exists e :: e in ms && e.mode.bitrate == bps
  }

  /** getIsMandatory: the mode is in the catalogue and its entry is mandatory. */
  predicate IsMandatory(ms: ModeSet, m: Mode): (mandatory: bool)
    ensures mandatory ==> Contains(ms, m)
    ensures !Contains(ms, m) ==> !mandatory
  {
    Entry(m, true) in ms
  }

  /** In a sorted catalogue two entries with the same bitrate are the same entry. */
  lemma BitrateIdentifiesEntry(ms: ModeSet, e1: Entry, e2: Entry)
    requires Sorted(ms) && e1 in ms && e2 in ms
    requires e1.mode.bitrate == e2.mode.bitrate
    ensures e1 == e2
  {
    var i :| 0 <= i < |ms| && ms[i] == e1;
    var j :| 0 <= j < |ms| && ms[j] == e2;
    if i < j {
      assert ms[i].mode.bitrate < ms[j].mode.bitrate;
    } else if j < i {
      assert ms[j].mode.bitrate < ms[i].mode.bitrate;
    }
  }

  /**
   * For a catalogue mode, getIsMandatory answers with the flag of the entry
   * that holds the mode's bitrate.
   */
  lemma MandatoryByBitrate(ms: ModeSet, m: Mode, e: Entry)
    requires Sorted(ms) && Contains(ms, m) && e in ms && e.mode.bitrate == m.bitrate
    ensures e.mode == m
    ensures IsMandatory(ms, m) <==> e.isMandatory
  {
    // the entry at m's bitrate is m's own entry, by the strict order of Sorted
  }

  /** getMode(bps): the catalogue's mode with exactly that bitrate. */
  function GetMode(ms: ModeSet, bps: int): (m: Mode)
    requires HasBitrate(ms, bps)
    ensures Contains(ms, m) && m.bitrate == bps
    decreases |ms|
  {
    if ms[0].mode.bitrate == bps then ms[0].mode
    else
      assert HasBitrate(ms[1..], bps) by {
        var e :| e in ms && e.mode.bitrate == bps;
        assert e in ms[1..] by { assert ms == [ms[0]] + ms[1..]; }
      }
      GetMode(ms[1..], bps)
  }

  /** getSlowestMandatoryMode: the mandatory mode no other mandatory mode is slower than. */
  function SlowestMandatoryMode(ms: ModeSet): (m: Mode)
    requires Valid(ms)
    ensures IsMandatory(ms, m)
    ensures forall e :: e in ms && e.isMandatory ==> m.bitrate <= e.mode.bitrate
    decreases |ms|
  {
    if ms[0].isMandatory then ms[0].mode
    else
      assert HasMandatory(ms[1..]) by {
        var e :| e in ms && e.isMandatory;
        assert e in ms[1..] by { assert ms == [ms[0]] + ms[1..]; }
      }
      SlowestMandatoryMode(ms[1..])
  }

  /** getFastestMandatoryMode: the mandatory mode no other mandatory mode is faster than. */
  function FastestMandatoryMode(ms: ModeSet): (m: Mode)
    requires Valid(ms)
    ensures IsMandatory(ms, m)
    ensures forall e :: e in ms && e.isMandatory ==> e.mode.bitrate <= m.bitrate
    decreases |ms|
  {
    var last := ms[|ms| - 1];
    if last.isMandatory then last.mode
    else
      var init := ms[..|ms| - 1];
      assert HasMandatory(init) by {
        var e :| e in ms && e.isMandatory;
        assert e in init by { assert ms == init + [last]; }
      }
      FastestMandatoryMode(init)
  }

  /** getFastestMode: the catalogue's fastest mode, mandatory or not. */
  function FastestMode(ms: ModeSet): (m: Mode)
    requires Valid(ms)
    ensures Contains(ms, m)
    ensures forall e :: e in ms ==> e.mode.bitrate <= m.bitrate
  {
    ms[|ms| - 1].mode
  }

  /**
   * getSlowerMandatoryMode: the fastest mandatory mode strictly slower than
   * `m`, or None when every mandatory mode is at least as fast as `m`.
   */
  function SlowerMandatoryMode(ms: ModeSet, m: Mode): (r: Option<Mode>)
    requires Sorted(ms)
    ensures r.Some? ==> IsMandatory(ms, r.value) && r.value.bitrate < m.bitrate
    ensures r.Some? ==>
      forall e :: e in ms && e.isMandatory && e.mode.bitrate < m.bitrate ==> e.mode.bitrate <= r.value.bitrate
    ensures r.None? <==> forall e :: e in ms && e.isMandatory ==> m.bitrate <= e.mode.bitrate
    decreases |ms|
  {
    if |ms| == 0 then None
    else
      var last := ms[|ms| - 1];
      var init := ms[..|ms| - 1];
      assert ms == init + [last];
      if last.isMandatory && last.mode.bitrate < m.bitrate then
        Some(last.mode)
      else
        SlowerMandatoryMode(init, m)
  }
}
