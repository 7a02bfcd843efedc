/** Which pixels of the strip belong to which satellite (`get_satellite_led_indices`). */
module LedLayout {
  import opened Config

  /** First pixel of `satellite`'s block. */
  function FirstLed(satellite: int): int {
    satellite * LedsPerSatellite
  }

  /** The pixels owned by `satellite`, in increasing order: Python's
      `range(satellite * LEDS_PER_SATELLITE, satellite * LEDS_PER_SATELLITE + LEDS_PER_SATELLITE)`.
      Any integer is accepted, as in the source; only `0 <= satellite < SatelliteCount`
      lands on the strip. */
  function SatelliteLedIndices(satellite: int): (r: seq<int>)
    ensures |r| == LedsPerSatellite
    ensures forall p :: p in r <==> FirstLed(satellite) <= p < FirstLed(satellite) + LedsPerSatellite
    ensures forall j, k :: 0 <= j < k < |r| ==> r[j] < r[k]
  {
    var lo := FirstLed(satellite);
    var r := seq(LedsPerSatellite, k => lo + k);
    assert forall p {:trigger p in r} :: lo <= p < lo + LedsPerSatellite ==> r[p - lo] == p && p in r;
    r
  }

  /** A pixel belongs to exactly one satellite, the one numbered `p / LedsPerSatellite`. */
  lemma OwnerOfLed(satellite: int, p: int)
    ensures p in SatelliteLedIndices(satellite) <==> satellite == p / LedsPerSatellite
  {
  }

  /** Blocks of distinct satellites never share a pixel. */
  lemma LedRangesDisjoint(i: int, j: int, p: int)
    requires i != j
    ensures !(p in SatelliteLedIndices(i) && p in SatelliteLedIndices(j))
  {
  }

  /** Every block of a configured satellite lies on the strip. */
  lemma LedRangeOnStrip(satellite: int)
    requires 0 <= satellite < SatelliteCount
    ensures forall p :: p in SatelliteLedIndices(satellite) ==> 0 <= p < TotalLedCount
  {
  }

  /** Together the configured satellites' blocks cover the whole strip. */
  lemma LedRangesCoverStrip(p: int)
    requires 0 <= p < TotalLedCount
    ensures exists satellite :: 0 <= satellite < SatelliteCount && p in SatelliteLedIndices(satellite)
  {
    var owner := p / LedsPerSatellite;
    assert p in SatelliteLedIndices(owner);
  }
}
