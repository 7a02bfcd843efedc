/** `is_transmitting`: is the current instant inside one of a satellite's windows? */
module Transmission {
  import opened Wrappers
  import opened Timestamps

  /** One `[start_time, end_time]` entry of a satellite's `transmission_times`, as stored. */
  datatype Window = Window(start: string, end: string)

  /** The `ValueError` that escapes `is_transmitting`, with the text `strptime` rejected. */
  datatype Malformed = Malformed(text: string)

  /** A parser for the `"%Y/%m/%d %H:%M:%S"` strings. The model's is `ParseTimestamp`;
      the properties below hold for every parser, so they are stated for any. */
  type Parser = string -> Option<Timestamp>

  /** Both ends of the window parse. */
  predicate WellFormed(parse: Parser, w: Window) {
    parse(w.start).Some? && parse(w.end).Some?
  }

  /** `start <= now <= end`, both ends inclusive. */
  predicate Covers(parse: Parser, w: Window, now: Timestamp) {
    WellFormed(parse, w) && AtOrBefore(parse(w.start).value, now) && AtOrBefore(now, parse(w.end).value)
  }

  /** The loop of `is_transmitting`, reading timestamps with `parse`: windows are examined
      in order, the start before the end, and the first window containing `now` ends the
      search, so later entries are never parsed. A malformed entry reached before that
      raises. */
  function TransmittingWith(parse: Parser, windows: seq<Window>, now: Timestamp): Result<bool, Malformed> {
    if windows == [] then Success(false)
    else
      var start :- parse(windows[0].start).ToResult(Malformed(windows[0].start));
      var end :- parse(windows[0].end).ToResult(Malformed(windows[0].end));
      if AtOrBefore(start, now) && AtOrBefore(now, end) then Success(true)
      else TransmittingWith(parse, windows[1..], now)
  }

  /** What `is_transmitting(transmission_times)` evaluates to when `datetime.now()` is `now`. */
  function Transmitting(windows: seq<Window>, now: Timestamp): Result<bool, Malformed> {
    TransmittingWith(ParseTimestamp, windows, now)
  }

  /** The loop of `is_transmitting`, with the clock reading passed in. */
  method IsTransmitting(windows: seq<Window>, now: Timestamp) returns (r: Result<bool, Malformed>)
    ensures r == Transmitting(windows, now)
  {
    var i := 0;
    while i < |windows|
      invariant 0 <= i <= |windows|
      invariant Transmitting(windows, now) == Transmitting(windows[i..], now)
    {
      var start := ParseTimestamp(windows[i].start);
      if start.None? {
        return Failure(Malformed(windows[i].start));
      }
      var end := ParseTimestamp(windows[i].end);
      if end.None? {
        return Failure(Malformed(windows[i].end));
      }
      if AtOrBefore(start.value, now) && AtOrBefore(now, end.value) {
        return Success(true);
      }
      i := i + 1;
    }
    return Success(false);
  }

  /** A `True` answer names a window containing `now`; a `False` answer means every
      window parsed and none contains `now`. */
  lemma {:induction false} TransmittingSound(parse: Parser, windows: seq<Window>, now: Timestamp)
    ensures TransmittingWith(parse, windows, now) == Success(true) ==>
      exists k :: 0 <= k < |windows| && Covers(parse, windows[k], now)
    ensures TransmittingWith(parse, windows, now) == Success(false) ==>
      forall k :: 0 <= k < |windows| ==> WellFormed(parse, windows[k]) && !Covers(parse, windows[k], now)
  {
    if windows != [] && WellFormed(parse, windows[0]) && !Covers(parse, windows[0], now) {
      TransmittingSound(parse, windows[1..], now);
      if TransmittingWith(parse, windows, now) == Success(true) {
        var k :| 0 <= k < |windows[1..]| && Covers(parse, windows[1..][k], now);
        assert Covers(parse, windows[k + 1], now);
      }
      if TransmittingWith(parse, windows, now) == Success(false) {
        forall k | 0 <= k < |windows|
          ensures WellFormed(parse, windows[k]) && !Covers(parse, windows[k], now)
        {
          if k > 0 {
            assert windows[k] == windows[1..][k - 1];
          }
        }
      }
    }
  }

  /** The first window containing `now` decides the answer, whatever follows it. */
  lemma {:induction false} TransmittingStopsAtFirstCover(parse: Parser, windows: seq<Window>, now: Timestamp, k: nat)
    requires k < |windows| && Covers(parse, windows[k], now)
    requires forall j :: 0 <= j < k ==> WellFormed(parse, windows[j])
    ensures TransmittingWith(parse, windows, now) == Success(true)
  {
    if k > 0 && !Covers(parse, windows[0], now) {
      TransmittingStopsAtFirstCover(parse, windows[1..], now, k - 1);
    }
  }

  /** A malformed window reached before any window containing `now` makes the call raise,
      reporting its start if that fails to parse and its end otherwise. */
  lemma {:induction false} TransmittingRaisesAtMalformed(parse: Parser, windows: seq<Window>, now: Timestamp, k: nat)
    requires k < |windows| && !WellFormed(parse, windows[k])
    requires forall j :: 0 <= j < k ==> WellFormed(parse, windows[j]) && !Covers(parse, windows[j], now)
    ensures TransmittingWith(parse, windows, now) ==
      Failure(Malformed(if parse(windows[k].start).None? then windows[k].start else windows[k].end))
  {
    if k > 0 {
      TransmittingRaisesAtMalformed(parse, windows[1..], now, k - 1);
    }
  }

  /** On well-formed windows the answer is exactly "some window contains `now`"; in
      particular an empty list gives `False`. */
  lemma TransmittingIffCovered(parse: Parser, windows: seq<Window>, now: Timestamp)
    requires forall k :: 0 <= k < |windows| ==> WellFormed(parse, windows[k])
    ensures TransmittingWith(parse, windows, now) == Success(exists k :: 0 <= k < |windows| && Covers(parse, windows[k], now))
  {
    TransmittingSound(parse, windows, now);
    if exists k :: 0 <= k < |windows| && Covers(parse, windows[k], now) {
      var k :| 0 <= k < |windows| && Covers(parse, windows[k], now);
      TransmittingStopsAtFirstCover(parse, windows, now, k);
    } else if TransmittingWith(parse, windows, now).Failure? {
      TransmittingNeverRaisesOnWellFormed(parse, windows, now);
    }
  }

  lemma {:induction false} TransmittingNeverRaisesOnWellFormed(parse: Parser, windows: seq<Window>, now: Timestamp)
    requires forall k :: 0 <= k < |windows| ==> WellFormed(parse, windows[k])
    ensures TransmittingWith(parse, windows, now).Success?
  {
    if windows != [] {
      TransmittingNeverRaisesOnWellFormed(parse, windows[1..], now);
    }
  }

  /** A single window whose bounds read as `start` and `end`: `now` is transmitting
      exactly when it lies between them. */
  lemma {:induction false} SingleWindow(parse: Parser, w: Window, start: Timestamp, end: Timestamp, now: Timestamp)
    requires parse(w.start) == Some(start) && parse(w.end) == Some(end)
    ensures TransmittingWith(parse, [w], now) == Success(AtOrBefore(start, now) && AtOrBefore(now, end))
  {
    assert [w][1..] == [];
  }

  /** A window written in the `"%Y/%m/%d %H:%M:%S"` format is transmitting exactly when
      `now` lies between its bounds, both included. */
  lemma FormattedWindow(start: Timestamp, end: Timestamp, now: Timestamp)
    requires Valid(start) && start.microsecond == 0
    requires Valid(end) && end.microsecond == 0
    ensures Transmitting([Window(FormatTimestamp(start), FormatTimestamp(end))], now)
         == Success(AtOrBefore(start, now) && AtOrBefore(now, end))
  {
    ParseFormat(start);
    ParseFormat(end);
    SingleWindow(ParseTimestamp, Window(FormatTimestamp(start), FormatTimestamp(end)), start, end, now);
  }

  /** The window `"2024/01/01 00:00:00"`-`"2024/01/01 00:10:00"`, given as text, is
      transmitting exactly from its first second to its last, both included. */
  lemma ExampleWindow(now: Timestamp)
    ensures Transmitting([Window("2024/01/01 00:00:00", "2024/01/01 00:10:00")], now)
         == Success(AtOrBefore(Timestamp(2024, 1, 1, 0, 0, 0, 0), now) &&
                    AtOrBefore(now, Timestamp(2024, 1, 1, 0, 10, 0, 0)))
  {
    var start, end := Timestamp(2024, 1, 1, 0, 0, 0, 0), Timestamp(2024, 1, 1, 0, 10, 0, 0);
    ExampleWindowStartText();
    ExampleWindowEndText();
    FormattedWindow(start, end, now);
  }

  /** The example window is transmitting five minutes in. */
  lemma ExampleWindowInside()
    ensures Transmitting([Window("2024/01/01 00:00:00", "2024/01/01 00:10:00")],
                         Timestamp(2024, 1, 1, 0, 5, 0, 0)) == Success(true)
  {
    var start, now, end := Timestamp(2024, 1, 1, 0, 0, 0, 0), Timestamp(2024, 1, 1, 0, 5, 0, 0),
                           Timestamp(2024, 1, 1, 0, 10, 0, 0);
    LexLeFirstDifference(Fields(start), Fields(now), 4);
    LexLeFirstDifference(Fields(now), Fields(end), 4);
    ExampleWindow(now);
  }

  /** The same window is not transmitting twenty minutes in. */
  lemma ExampleWindowAfter()
    ensures Transmitting([Window("2024/01/01 00:00:00", "2024/01/01 00:10:00")],
                         Timestamp(2024, 1, 1, 0, 20, 0, 0)) == Success(false)
  {
    var now, end := Timestamp(2024, 1, 1, 0, 20, 0, 0), Timestamp(2024, 1, 1, 0, 10, 0, 0);
    LexLeFirstDifference(Fields(now), Fields(end), 4);
    ExampleWindow(now);
  }

  /** Nor half a second after its last whole second: `now` carries microseconds and the
      parsed end does not. */
  lemma ExampleWindowJustAfter()
    ensures Transmitting([Window("2024/01/01 00:00:00", "2024/01/01 00:10:00")],
                         Timestamp(2024, 1, 1, 0, 10, 0, 500000)) == Success(false)
  {
    var now, end := Timestamp(2024, 1, 1, 0, 10, 0, 500000), Timestamp(2024, 1, 1, 0, 10, 0, 0);
    LexLeFirstDifference(Fields(now), Fields(end), 6);
    ExampleWindow(now);
  }

  /** The start of the example window, as text. */
  lemma ExampleWindowStartText()
    ensures FormatTimestamp(Timestamp(2024, 1, 1, 0, 0, 0, 0)) == "2024/01/01 00:00:00"
  {
    assert FourDigits(2024) == "2024" && TwoDigits(1) == "01" && TwoDigits(0) == "00";
  }

  /** The end of the example window, as text. */
  lemma ExampleWindowEndText()
    ensures FormatTimestamp(Timestamp(2024, 1, 1, 0, 10, 0, 0)) == "2024/01/01 00:10:00"
  {
    assert FourDigits(2024) == "2024" && TwoDigits(1) == "01" && TwoDigits(0) == "00" && TwoDigits(10) == "10";
  }
}
