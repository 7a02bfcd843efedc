/** The pixel buffer and the three helpers that write it: `set_all_pixels`,
    `set_pixel_colour` and `set_satellite_leds`. */
module Strip {
  import opened Config
  import opened LedLayout

  /** The driver object `strip`: a fixed buffer of colours written by `setPixelColor`
      and pushed to the LEDs by `show()`, which the model counts. */
  class LedStrip {
    const pixels: array<Colour>
    /** How many times the buffer has been pushed to the LEDs. */
    var shows: nat

    /** A strip of `count` pixels, all off, never shown. */
    constructor (count: nat)
      ensures fresh(pixels) && pixels.Length == count && shows == 0
      ensures forall p :: 0 <= p < count ==> pixels[p] == Off
    {
      pixels := new Colour[count](_ => Off);
      shows := 0;
    }

    /** `numPixels()` */
    function NumPixels(): nat {
      pixels.Length
    }

    /** `setPixelColor(n, colour)`: writes one slot of the buffer; nothing reaches the
        LEDs until `Show`. Every caller in the script passes an index on the strip. */
    method SetPixelColor(n: int, colour: Colour)
      requires 0 <= n < pixels.Length
      modifies pixels
      ensures pixels[..] == old(pixels[..])[n := colour]
    {
      pixels[n] := colour;
    }

    /** `show()` */
    method Show()
      modifies this`shows
      ensures shows == old(shows) + 1
    {
      shows := shows + 1;
    }
  }

  /** Number of entries of `leds` that are pixels of a strip of length `n`. */
  function OnStrip(leds: seq<int>, n: int): nat {
    if leds == [] then 0
    else OnStrip(leds[..|leds| - 1], n) + (if 0 <= leds[|leds| - 1] < n then 1 else 0)
  }

  /** When every index lies on the strip, each of them counts. */
  lemma {:induction false} OnStripAll(leds: seq<int>, n: int)
    requires forall k :: 0 <= k < |leds| ==> 0 <= leds[k] < n
    ensures OnStrip(leds, n) == |leds|
  {
    if leds != [] {
      OnStripAll(leds[..|leds| - 1], n);
    }
  }

  /** `set_all_pixels(colour)`: every pixel takes `colour`, then one `show()`. */
  method SetAllPixels(strip: LedStrip, colour: Colour)
    modifies strip.pixels, strip`shows
    ensures forall p :: 0 <= p < strip.pixels.Length ==> strip.pixels[p] == colour
    ensures strip.shows == old(strip.shows) + 1
  {
    for i := 0 to strip.NumPixels()
      invariant forall p :: 0 <= p < i ==> strip.pixels[p] == colour
      invariant strip.shows == old(strip.shows)
    {
      strip.SetPixelColor(i, colour);
    }
    strip.Show();
  }

  /** `set_pixel_colour(pixel_index, colour)`: an index off the strip is ignored;
      otherwise exactly that pixel changes and the buffer is shown. */
  method SetPixelColour(strip: LedStrip, index: int, colour: Colour)
    modifies strip.pixels, strip`shows
    ensures strip.pixels[..] ==
      if 0 <= index < strip.pixels.Length then old(strip.pixels[..])[index := colour]
      else old(strip.pixels[..])
    ensures strip.shows == old(strip.shows) + (if 0 <= index < strip.pixels.Length then 1 else 0)
  {
    if 0 <= index < strip.NumPixels() {
      strip.SetPixelColor(index, colour);
      strip.Show();
    }
  }

  /** `set_satellite_leds(satellite_index, colour)`: the satellite's pixels that lie on the
      strip take `colour`, every other pixel keeps its colour, and each pixel written is
      shown on its own. */
  method SetSatelliteLeds(strip: LedStrip, satellite: int, colour: Colour)
    modifies strip.pixels, strip`shows
    ensures forall p :: 0 <= p < strip.pixels.Length ==>
      strip.pixels[p] == if p in SatelliteLedIndices(satellite) then colour else old(strip.pixels[p])
    ensures strip.shows == old(strip.shows) + OnStrip(SatelliteLedIndices(satellite), strip.pixels.Length)
  {
    var leds := SatelliteLedIndices(satellite);
    for k := 0 to |leds|
      invariant forall p :: 0 <= p < strip.pixels.Length ==>
        strip.pixels[p] == if p in leds[..k] then colour else old(strip.pixels[p])
      invariant strip.shows == old(strip.shows) + OnStrip(leds[..k], strip.pixels.Length)
    {
      SetPixelColour(strip, leds[k], colour);
      assert leds[..k + 1] == leds[..k] + [leds[k]];
    }
    assert leds[..|leds|] == leds;
  }

  /** On the full strip, a configured satellite's call writes and shows exactly its
      `LedsPerSatellite` pixels; any other satellite number writes nothing. */
  lemma SatelliteLedsOnFullStrip(satellite: int)
    ensures 0 <= satellite < SatelliteCount ==>
      OnStrip(SatelliteLedIndices(satellite), TotalLedCount) == LedsPerSatellite
    ensures !(0 <= satellite < SatelliteCount) ==>
      forall p :: 0 <= p < TotalLedCount ==> p !in SatelliteLedIndices(satellite)
  {
    var leds := SatelliteLedIndices(satellite);
    if 0 <= satellite < SatelliteCount {
      LedRangeOnStrip(satellite);
      assert forall k :: 0 <= k < |leds| ==> leds[k] in leds;
      OnStripAll(leds, TotalLedCount);
    }
  }
}
