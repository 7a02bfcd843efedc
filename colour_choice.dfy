/** The colour choice inside the render loop of `update_led_state`: what one satellite's
    LEDs show during one pass, given its `solved` flag and whether it is transmitting. */
module ColourChoice {
  import opened Config

  /** One step of a satellite's display: set its LEDs to `colour`, then sleep `millis`. */
  datatype Frame = Frame(colour: Colour, millis: nat)

  /** The colour of the satellite's state alone: green when solved, red otherwise. */
  function StateColour(solved: bool): Colour {
    if solved then SolvedColour else UnsolvedColour
  }

  /** Total time the frames take. */
  function Duration(frames: seq<Frame>): nat {
    if frames == [] then 0 else frames[0].millis + Duration(frames[1..])
  }

  /** The four branches of the render loop. Not transmitting: the state colour for a
      second. Transmitting: the state colour, then the transmitting colour, half a second
      each. */
  function CycleFrames(solved: bool, transmitting: bool): (r: seq<Frame>)
    ensures |r| == (if transmitting then 2 else 1)
    ensures r[0].colour == StateColour(solved)
    ensures transmitting ==> r[1].colour == TransmittingColour && r[0].millis == r[1].millis
    ensures Duration(r) == 1000
  {
    var r :=
      if solved then
        if transmitting then [Frame(SolvedColour, 500), Frame(TransmittingColour, 500)]
        else [Frame(SolvedColour, 1000)]
      else
        if transmitting then [Frame(UnsolvedColour, 500), Frame(TransmittingColour, 500)]
        else [Frame(UnsolvedColour, 1000)];
    assert |r| == 2 ==> r[1..][1..] == [] && Duration(r[1..]) == r[1].millis;
    r
  }

  /** The three colours differ, so what a satellite shows tells its state apart: the
      frames determine both `solved` and `transmitting`. */
  lemma CycleFramesDetermineState(solved: bool, transmitting: bool, solved': bool, transmitting': bool)
    requires CycleFrames(solved, transmitting) == CycleFrames(solved', transmitting')
    ensures solved == solved' && transmitting == transmitting'
  {
    var r, r' := CycleFrames(solved, transmitting), CycleFrames(solved', transmitting');
    assert r[0].colour == r'[0].colour;
    assert |r| == |r'|;
  }
}
