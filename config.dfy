/** The fixed configuration of led_controller.py: strip geometry and the three colours. */
module Config {

  /** Number of satellites (challenges) on the strip. */
  const SatelliteCount: nat := 10
  /** Number of consecutive LEDs each satellite owns. */
  const LedsPerSatellite: nat := 3
  /** Length of the strip; the strip is constructed with exactly this many pixels. */
  const TotalLedCount: nat := SatelliteCount * LedsPerSatellite

  newtype Byte = x: int | 0 <= x < 256

  /** An RGB triple, the argument of the driver's `Color(r, g, b)`. */
  datatype Colour = Colour(red: Byte, green: Byte, blue: Byte)

  const UnsolvedColour := Colour(255, 0, 0)
  const SolvedColour := Colour(0, 255, 0)
  const TransmittingColour := Colour(0, 0, 255)
  /** `Color(0, 0, 0)`: written to every pixel at start-up. */
  const Off := Colour(0, 0, 0)
}
