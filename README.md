# Satellite LED controller: a Dafny model

`led_controller.py` is a Flask service for a capture-the-flag event. It drives an
addressable LED strip where each of `SATELLITE_COUNT = 10` satellites (challenges) owns
`LEDS_PER_SATELLITE = 3` consecutive pixels. A satellite's pixels show whether it is
solved, and they alternate with blue while one of its scheduled transmission windows
is open. The competition platform changes the state through the `/webhook` endpoint.
This project models the decision logic inside that script and proves its properties:

- `LedLayout`: `get_satellite_led_indices`. Satellite `i` owns the pixels
  `[3i, 3i+3)`. The blocks are disjoint, and the configured ones tile the 30-pixel strip.
- `Timestamps`: naive `datetime` values, their ordering, and
  `datetime.strptime(text, "%Y/%m/%d %H:%M:%S")` as CPython's `_strptime` accepts it.
  The parser follows the per-field regular expressions: `%Y` takes four digits, the
  other fields take one or two digits within their range, and `%d` may also be a space
  followed by one digit. The space of the format matches a run of whitespace, and
  leftover text is an error. The `datetime` constructor's checks come after the parse.
  Parsing the zero-padded text of a timestamp gives that timestamp back.
- `Transmission`: `is_transmitting`, with `datetime.now()` passed in as `now`. It is a
  loop method proved against a recursive specification. The properties of that
  specification are proved for any timestamp parser, so they hold for the model's parser
  in particular.
- `Strip`: the driver's pixel buffer as a class over an `array`, with `show()` counted.
  It also holds `set_all_pixels`, `set_pixel_colour` and `set_satellite_leds`, which
  write the buffer slot by slot.
- `StateStore`: the default state of `load_state` and the decision logic of
  `webhook()`. The logic is a specification function plus a class whose method updates
  the state in place and records every snapshot handed to `save_state`.
- `ColourChoice`: the four colour branches of the render loop, as frames of colour and
  duration.

Behaviours of the script that the model keeps as written:

- A timestamp that does not parse makes `is_transmitting` raise. It is not skipped.
- An empty `WEBHOOK_SECRET` turns the secret check off, like an unset one.
- `set_pixel_colour` shows the buffer after each pixel it writes, so `set_satellite_leds`
  shows it once per pixel; `set_all_pixels` shows it once.
- A state file is loaded without checking its length. A request that indexes past the
  end of a short list therefore fails with an uncaught `IndexError`, which Flask answers
  with 500.
- The webhook takes `type` / `satellite_index` / `transmission_times`. It only marks a
  satellite solved or appends windows; no request clears a flag or a window.

## Model

| member | source | states |
|---|---|---|
| `LedLayout.SatelliteLedIndices` | led_controller.py:58-61 | the block has exactly `LedsPerSatellite` pixels, strictly increasing, and holds exactly the integers in `[i*L, i*L+L)` |
| `LedLayout.OwnerOfLed` | led_controller.py:58-61 | pixel `p` belongs to satellite `i` iff `i == p / L`, so each pixel has one owner |
| `LedLayout.LedRangesDisjoint` | led_controller.py:58-61 | blocks of distinct satellites share no pixel |
| `LedLayout.LedRangeOnStrip` | led_controller.py:22-24 | the block of each configured satellite lies inside `[0, TOTAL_LED_COUNT)` |
| `LedLayout.LedRangesCoverStrip` | led_controller.py:22-24 | every pixel of the strip belongs to some configured satellite |
| `Timestamps.AtOrBeforeTotalOrder` | led_controller.py:69 | datetime `<=` is total, transitive and antisymmetric |
| `Timestamps.MakeTimestamp` | led_controller.py:67-68 | the `datetime` constructor succeeds exactly on valid field values (year 1-9999, day within its month, leap years included, seconds 0-59) |
| `Timestamps.ParseTimestamp` | led_controller.py:67-68 | a successful parse yields a valid datetime with zero microseconds |
| `Timestamps.LexLeFirstDifference` | led_controller.py:69 | when two field sequences agree up to a position and differ there, `<=` holds iff the first is smaller at that position |
| `Timestamps.DigitRunIsMaximal` | led_controller.py:67-68 | the digits a field takes are all digits and are followed by a non-digit, which is why the regex's backtracking reduces to "the run of digits" |
| `Timestamps.ParseFormat` | led_controller.py:67-68 | parsing the zero-padded text of any valid whole-second datetime gives back that datetime |
| `Transmission.IsTransmitting` | led_controller.py:63-71 | the loop, with its early return and its raise on a malformed entry, computes `Transmitting(windows, now)` |
| `Transmission.TransmittingSound` | led_controller.py:63-71 | a `True` answer names a window with `start <= now <= end`; a `False` answer means every window parsed and none contains `now` |
| `Transmission.TransmittingIffCovered` | led_controller.py:63-71 | on well-formed windows the answer is `True` iff some window contains `now`, both ends inclusive; `False` for no windows |
| `Transmission.TransmittingNeverRaisesOnWellFormed` | led_controller.py:66-68 | if every entry parses, the call does not raise |
| `Transmission.TransmittingStopsAtFirstCover` | led_controller.py:66-70 | once a window containing `now` is reached, the answer is `True`, whatever the later entries hold, malformed or not |
| `Transmission.TransmittingRaisesAtMalformed` | led_controller.py:66-68 | a malformed entry reached before any covering window raises, reporting the start text if that fails, else the end text |
| `Transmission.SingleWindow` | led_controller.py:69 | with one window, the answer is exactly `start <= now <= end` |
| `Transmission.FormattedWindow` | led_controller.py:63-71 | a window written in the format is transmitting iff `now` lies between its parsed bounds |
| `Transmission.ExampleWindow` | led_controller.py:63-71 | for the window given as the text `2024/01/01 00:00:00`-`2024/01/01 00:10:00`, the answer at any `now` is `00:00:00 <= now <= 00:10:00` on that day |
| `Transmission.ExampleWindowInside` | led_controller.py:63-71 | the window `2024/01/01 00:00:00`-`00:10:00` is transmitting at 00:05:00 |
| `Transmission.ExampleWindowAfter` | led_controller.py:63-71 | the same window is not transmitting at 00:20:00 |
| `Transmission.ExampleWindowJustAfter` | led_controller.py:69 | nor at 00:10:00.5, because `now` carries microseconds |
| `Transmission.ExampleWindowStartText` | led_controller.py:67-68 | the example window's start is written `2024/01/01 00:00:00` in the format the parser reads |
| `Transmission.ExampleWindowEndText` | led_controller.py:67-68 | the example window's end is written `2024/01/01 00:10:00` in the format the parser reads |
| `Strip.LedStrip.constructor` | led_controller.py:55-56 | a fresh buffer of the requested length, all pixels off, never shown |
| `Strip.LedStrip.SetPixelColor` | led_controller.py:116 | the driver call writes exactly one slot |
| `Strip.LedStrip.Show` | led_controller.py:117 | each `show()` is counted |
| `Strip.SetAllPixels` | led_controller.py:107-111 | afterwards every pixel equals the colour; one `show()` |
| `Strip.SetPixelColour` | led_controller.py:113-117 | an index outside `[0, numPixels)` leaves buffer and count unchanged; otherwise only that pixel changes and it is shown once |
| `Strip.SetSatelliteLeds` | led_controller.py:119-122 | a pixel takes the colour iff it is in the satellite's block; every other pixel keeps its colour; one `show()` per written pixel |
| `Strip.OnStripAll` | led_controller.py:119-122 | when all indices lie on the strip, each of them is written |
| `Strip.SatelliteLedsOnFullStrip` | led_controller.py:119-122 | on the 30-pixel strip a configured satellite writes exactly its 3 pixels; any other index writes none |
| `StateStore.DefaultState` | led_controller.py:84-93 | exactly `SATELLITE_COUNT` records, each unsolved with no windows |
| `StateStore.HandleWebhook` | led_controller.py:162-189 | 401 iff a non-empty secret is configured and the header is missing, empty or different; 400 iff the check passed and the index (default 0) is outside `[0, SATELLITE_COUNT)`; 500 iff a solve or a non-empty add reaches past a short list; every failure leaves the state unchanged; the length never changes; no other satellite changes; `solved` is never cleared and windows only grow at the end |
| `StateStore.WebhookStatus` | led_controller.py:162-189 | the HTTP status: 401 iff the secret is rejected, 400 iff the index is outside the configured satellites, 500 iff a solve or non-empty add reaches past a short list, 200 in every other case |
| `StateStore.HandleOneRequest` | led_controller.py:177-189 | on a full list, one request leaves record `j` solved iff it was solved or the request is an accepted solve of `j`, and appends exactly the windows an accepted add for `j` carries |
| `StateStore.SolvedEventSetsFlag` | led_controller.py:177-179 | `challenge_solved` answers success and sets only that satellite's `solved` |
| `StateStore.AddTimesEventAppends` | led_controller.py:180-184 | `add_transmission_time` appends the given windows in order and keeps `solved`; an absent or empty list changes nothing |
| `StateStore.OtherEventChangesNothing` | led_controller.py:185-189 | any other event type, or none, answers success and changes nothing |
| `StateStore.ReplayFromDefault` | led_controller.py:177-189 | from the default state, after any sequence of requests, a satellite is solved iff some accepted request solved it, and its windows are exactly the accepted additions in arrival order |
| `StateStore.SatelliteStore.constructor` | led_controller.py:73-93 | `load_state()`: the stored list as it is when the file reads, otherwise the default state; nothing saved yet |
| `StateStore.SatelliteStore.Webhook` | led_controller.py:155-189 | the in-place handler answers and updates as `HandleWebhook` says; on success it hands the new state to `save_state` once, on failure it saves nothing |
| `ColourChoice.CycleFrames` | led_controller.py:131-152 | one frame of the state colour (green solved, red unsolved) when not transmitting; when transmitting, the state colour first, then blue, each for the same time; a cycle lasts one second |
| `ColourChoice.CycleFramesDetermineState` | led_controller.py:26-31 | the three colours differ, so the frames shown determine both `solved` and `transmitting` |

## Left out

- Flask routing, `request.get_json()` and `jsonify`. The JSON fields arrive as typed
  parameters (`Option<string>`, `Option<int>`, `Option<seq<Window>>`). A body that is
  not JSON, and JSON values of the wrong type (a string index, non-pair windows, `true`
  taken as index 1), are not modelled. The `/health` endpoint is a read-only Flask view
  and is not modelled.
- File I/O and JSON in `load_state` / `save_state`. Reading the file becomes the
  constructor's `stored` parameter. Writing becomes the appended `saved` snapshot.
  Serialisation, write failures and the file round-trip belong to `json` and the OS.
- The `rpi_ws281x` driver: `Adafruit_NeoPixel(...)`, `begin()`, the packing done by
  `Color()`, and the unused `BRIGHTNESS` table. Colours are RGB triples, and the strip is
  an array with a `show()` counter.
- The render loop `update_led_state` as a whole: the `while True`, the daemon thread and
  the `time.sleep` calls. Only the colour choice is modelled (`CycleFrames`), with the
  sleeps as frame durations. As written, line 129 assigns to a local named
  `is_transmitting`, which shadows the function. Its first iteration therefore raises
  `UnboundLocalError`, so no claim is made about the loop running.
- `datetime.now()` and `os.getenv`: passed in as `now` and the configured secret.
- Logging; the start-up message; `app.run`; the `PORT` variable.
- Concurrency: the webhook handler and the render thread share `satellite_states`
  without a lock. Each model operation runs on its own.
- Timestamps.ParseTimestamp: only ASCII digits and ASCII whitespace (space, U+0009-U+000D
  and U+001C-U+001F) are modelled. Python's `\d` and `\s` also match non-ASCII digits and
  spaces, such as U+0085, U+00A0 and the Arabic-Indic digits.
