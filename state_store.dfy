/** The satellite state the script keeps in the global `satellite_states`, how it starts
    (`load_state`) and how the `/webhook` handler changes it. */
module StateStore {
  import opened Wrappers
  import opened Config
  import opened Transmission

  /** One entry of `satellite_states['satellite_states']`. */
  datatype SatelliteState = SatelliteState(solved: bool, transmissionTimes: seq<Window>)

  /** The default branch of `load_state`: `SatelliteCount` records, none solved, none
      with a transmission window. */
  function DefaultState(): (r: seq<SatelliteState>)
    ensures |r| == SatelliteCount
    ensures forall i :: 0 <= i < |r| ==> !r[i].solved && r[i].transmissionTimes == []
  {
    seq(SatelliteCount, _ => SatelliteState(false, []))
  }

  /** What `webhook()` answers. `IndexError` is the HTTP 500 Flask sends when the handler
      raises because the loaded list is shorter than `SatelliteCount`. */
  datatype Response = Ok | Unauthorized | InvalidIndex | IndexError

  function StatusCode(r: Response): int {
    match r
    case Ok => 200
    case Unauthorized => 401
    case InvalidIndex => 400
    case IndexError => 500
  }

  /** The secret check: skipped when `WEBHOOK_SECRET` is unset or empty (Python's
      `if webhook_secret:`); otherwise the `X-Webhook-Secret` header must be present,
      non-empty and equal to it. */
  predicate SecretAccepted(configured: Option<string>, received: Option<string>) {
    configured.None? || configured.value == "" ||
    (received.Some? && received.value != "" && received.value == configured.value)
  }

  const SolvedEvent := "challenge_solved"
  const AddTimesEvent := "add_transmission_time"

  /** Whether this request reaches the list itself: only these two branches index it. */
  predicate TouchesRecord(eventType: Option<string>, times: Option<seq<Window>>) {
    eventType == Some(SolvedEvent) || (eventType == Some(AddTimesEvent) && times.GetOr([]) != [])
  }

  datatype Outcome = Outcome(response: Response, states: seq<SatelliteState>)

  /** The decision logic of `webhook()` on the state `states`, with the configured secret,
      the header and the three JSON fields `type`, `satellite_index` (default 0) and
      `transmission_times` (default `[]`) passed in; `None` stands for an absent value. */
  function HandleWebhook(states: seq<SatelliteState>, configured: Option<string>, received: Option<string>,
                         eventType: Option<string>, index: Option<int>, times: Option<seq<Window>>): (o: Outcome)
    ensures |o.states| == |states|
    ensures o.response == Unauthorized <==> !SecretAccepted(configured, received)
    ensures o.response == InvalidIndex <==>
      SecretAccepted(configured, received) && !(0 <= index.GetOr(0) < SatelliteCount)
    ensures o.response == IndexError <==>
      SecretAccepted(configured, received) && 0 <= index.GetOr(0) < SatelliteCount &&
      index.GetOr(0) >= |states| && TouchesRecord(eventType, times)
    ensures o.response != Ok ==> o.states == states
    ensures forall j :: 0 <= j < |states| && j != index.GetOr(0) ==> o.states[j] == states[j]
    ensures forall j :: 0 <= j < |states| ==>
      (states[j].solved ==> o.states[j].solved) &&
      states[j].transmissionTimes <= o.states[j].transmissionTimes
  {
    if !SecretAccepted(configured, received) then Outcome(Unauthorized, states)
    else
      var i := index.GetOr(0);
      if !(0 <= i < SatelliteCount) then Outcome(InvalidIndex, states)
      else if TouchesRecord(eventType, times) && i >= |states| then Outcome(IndexError, states)
      else if eventType == Some(SolvedEvent) then
        Outcome(Ok, states[i := states[i].(solved := true)])
      else if eventType == Some(AddTimesEvent) && times.GetOr([]) != [] then
        Outcome(Ok, states[i := states[i].(transmissionTimes := states[i].transmissionTimes + times.GetOr([]))])
      else Outcome(Ok, states)
  }

  /** The HTTP status `webhook()` answers with: 401 for a rejected secret, 400 for an index
      outside the configured satellites, 500 for a record past the end of a short list,
      and 200 otherwise. */
  lemma WebhookStatus(states: seq<SatelliteState>, configured: Option<string>, received: Option<string>,
                      eventType: Option<string>, index: Option<int>, times: Option<seq<Window>>)
    ensures var code := StatusCode(HandleWebhook(states, configured, received, eventType, index, times).response);
            var i := index.GetOr(0);
            (code == 401 <==> !SecretAccepted(configured, received)) &&
            (code == 400 <==> SecretAccepted(configured, received) && !(0 <= i < SatelliteCount)) &&
            (code == 500 <==> SecretAccepted(configured, received) && 0 <= i < SatelliteCount &&
                              i >= |states| && TouchesRecord(eventType, times)) &&
            (code == 200 <==> SecretAccepted(configured, received) && 0 <= i < SatelliteCount &&
                              (i < |states| || !TouchesRecord(eventType, times)))
  {
  }

  /** `challenge_solved` sets that satellite's flag and nothing else. */
  lemma SolvedEventSetsFlag(states: seq<SatelliteState>, configured: Option<string>, received: Option<string>,
                            index: Option<int>, times: Option<seq<Window>>)
    requires SecretAccepted(configured, received)
    requires 0 <= index.GetOr(0) < |states| && index.GetOr(0) < SatelliteCount
    ensures var o := HandleWebhook(states, configured, received, Some(SolvedEvent), index, times);
      o.response == Ok && o.states == states[index.GetOr(0) := states[index.GetOr(0)].(solved := true)]
  {
  }

  /** `add_transmission_time` appends the given windows, in order, after that satellite's
      existing ones; an absent or empty list changes nothing. */
  lemma AddTimesEventAppends(states: seq<SatelliteState>, configured: Option<string>, received: Option<string>,
                             index: Option<int>, times: Option<seq<Window>>)
    requires SecretAccepted(configured, received)
    requires 0 <= index.GetOr(0) < |states| && index.GetOr(0) < SatelliteCount
    ensures var o := HandleWebhook(states, configured, received, Some(AddTimesEvent), index, times);
      var i := index.GetOr(0);
      o.response == Ok && |o.states| == |states| &&
      o.states[i].solved == states[i].solved &&
      o.states[i].transmissionTimes == states[i].transmissionTimes + times.GetOr([])
  {
  }

  /** Any other event type, or none, changes nothing and still succeeds. */
  lemma OtherEventChangesNothing(states: seq<SatelliteState>, configured: Option<string>, received: Option<string>,
                                 eventType: Option<string>, index: Option<int>, times: Option<seq<Window>>)
    requires SecretAccepted(configured, received) && 0 <= index.GetOr(0) < SatelliteCount
    requires eventType != Some(SolvedEvent) && eventType != Some(AddTimesEvent)
    ensures HandleWebhook(states, configured, received, eventType, index, times) == Outcome(Ok, states)
  {
  }

  /** One webhook request. */
  datatype Request = Request(configured: Option<string>, received: Option<string>,
                             eventType: Option<string>, index: Option<int>, times: Option<seq<Window>>)

  /** The state after handling `requests` one after the other, starting from `states`. */
  function Replay(states: seq<SatelliteState>, requests: seq<Request>): (r: seq<SatelliteState>)
    ensures |r| == |states|
  {
    if requests == [] then states
    else
      var last := requests[|requests| - 1];
      HandleWebhook(Replay(states, requests[..|requests| - 1]),
                    last.configured, last.received, last.eventType, last.index, last.times).states
  }

  /** An accepted request that marks satellite `j` solved. */
  predicate SolvesSatellite(q: Request, j: int) {
    SecretAccepted(q.configured, q.received) && q.eventType == Some(SolvedEvent) && q.index.GetOr(0) == j
  }

  /** The windows an accepted request adds to satellite `j`. */
  function AddedTimes(q: Request, j: int): seq<Window> {
    if SecretAccepted(q.configured, q.received) && q.eventType == Some(AddTimesEvent) && q.index.GetOr(0) == j
    then q.times.GetOr([])
    else []
  }

  /** All windows `requests` add to satellite `j`, in order. */
  function AllAddedTimes(requests: seq<Request>, j: int): seq<Window> {
    if requests == [] then []
    else AllAddedTimes(requests[..|requests| - 1], j) + AddedTimes(requests[|requests| - 1], j)
  }

  /** On a full list, one request changes record `j` only by the flag it sets and the
      windows it adds. */
  lemma HandleOneRequest(states: seq<SatelliteState>, q: Request, j: int)
    requires |states| == SatelliteCount && 0 <= j < SatelliteCount
    ensures var r := HandleWebhook(states, q.configured, q.received, q.eventType, q.index, q.times).states[j];
            (r.solved <==> states[j].solved || SolvesSatellite(q, j)) &&
            r.transmissionTimes == states[j].transmissionTimes + AddedTimes(q, j)
  {
  }

  /** Starting from the default state, whatever requests arrive, satellite `j` is solved
      exactly when some accepted request marked it solved (no request ever clears the
      flag), and its windows are exactly those the accepted requests added, in arrival
      order. */
  lemma {:induction false} ReplayFromDefault(requests: seq<Request>, j: int)
    requires 0 <= j < SatelliteCount
    ensures Replay(DefaultState(), requests)[j].solved <==>
      exists k :: 0 <= k < |requests| && SolvesSatellite(requests[k], j)
    ensures Replay(DefaultState(), requests)[j].transmissionTimes == AllAddedTimes(requests, j)
  {
    if requests != [] {
      var init := requests[..|requests| - 1];
      var last := requests[|requests| - 1];
      ReplayFromDefault(init, j);
      HandleOneRequest(Replay(DefaultState(), init), last, j);
      if exists k :: 0 <= k < |requests| && SolvesSatellite(requests[k], j) {
        var k :| 0 <= k < |requests| && SolvesSatellite(requests[k], j);
        if k < |init| {
          assert SolvesSatellite(init[k], j);
        }
      } else {
        forall k | 0 <= k < |init|
          ensures !SolvesSatellite(init[k], j)
        {
          assert init[k] == requests[k];
        }
      }
    }
  }

  /** The store holding `satellite_states`, and the snapshots handed to `save_state`. */
  class SatelliteStore {
    var states: seq<SatelliteState>
    /** Every snapshot written by `save_state`, oldest first. */
    var saved: seq<seq<SatelliteState>>

    /** `satellite_states = load_state()`: `stored` is the file's list when the file exists
        and reads as JSON, `None` when it is missing or fails to read. The loaded list is
        taken as it is, whatever its length. */
    constructor (stored: Option<seq<SatelliteState>>)
      ensures states == (if stored.Some? then stored.value else DefaultState())
      ensures saved == []
    {
      if stored.Some? {
        states := stored.value;
      } else {
        states := DefaultState();
      }
      saved := [];
    }

    /** `webhook()`: check the secret, validate the index, apply the event, save the
        state and answer. */
    method Webhook(configured: Option<string>, received: Option<string>,
                   eventType: Option<string>, index: Option<int>, times: Option<seq<Window>>)
      returns (response: Response)
      modifies this
      ensures HandleWebhook(old(states), configured, received, eventType, index, times) == Outcome(response, states)
      ensures saved == if response == Ok then old(saved) + [states] else old(saved)
    {
      if configured.Some? && configured.value != "" {
        if received.None? || received.value == "" || received.value != configured.value {
          return Unauthorized;
        }
      }
      var i := index.GetOr(0);
      if !(0 <= i < SatelliteCount) {
        return InvalidIndex;
      }
      if eventType == Some(SolvedEvent) {
        if i >= |states| {
          return IndexError;
        }
        states := states[i := states[i].(solved := true)];
      } else if eventType == Some(AddTimesEvent) {
        var added := times.GetOr([]);
        if added != [] {
          if i >= |states| {
            return IndexError;
          }
          states := states[i := states[i].(transmissionTimes := states[i].transmissionTimes + added)];
        }
      }
      saved := saved + [states];
      return Ok;
    }
  }
}
