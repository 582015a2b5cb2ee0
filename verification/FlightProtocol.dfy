/** The flight loop is the flight participant of the attempt protocol: its answers leave through the send hook. */
module FlightProtocol {
  import opened Options
  import F = FlightRuntime
  import B = ActivityBroker
  import P = ActivityProtocol

  /** A request as the broker forwards it. */
  function MessageOf(r: F.Request): B.Message {
    if r.Stop? then B.Stop(r.id) else if r.Reset? then B.Reset(r.id) else B.Action(r.id)
  }

  function ReplyOf(r: F.Response): B.Reply {
    match r
    case Ok(id) => B.Ok(id)
    case Err(id, code) => B.Err(id, code)
    case Value(id, _) => B.Value(id)
  }

  function CommandOf(d: F.Doing): P.Command {
    if d.Rest? then P.Idle else P.Active(d.id, d.reset)
  }

  /** Responses leave one by one, while the command is already what it will be. */
  function Sent(s: P.System, responses: seq<F.Response>): P.System {
    if responses == [] then s
    else P.Emit(Sent(s, responses[..|responses| - 1]), ReplyOf(responses[|responses| - 1]), false)
  }

  lemma SentTwo(s: P.System, a: F.Response, b: F.Response)
    ensures Sent(s, [a]) == P.Emit(s, ReplyOf(a), false)
    ensures Sent(s, [a, b]) == P.Emit(P.Emit(s, ReplyOf(a), false), ReplyOf(b), false)
  {
    assert [a][..0] == [] && [a, b][..1] == [a];
  }

  /** Handling one request is a step of the protocol, for some choice of its participant. */
  lemma RequestIsFlightStep(s: P.System, r: F.Request, before: F.Doing, after: F.Doing, responses: seq<F.Response>)
    requires s.command == CommandOf(before) && F.Reacts(r, before, after, responses)
    ensures exists choice :: P.Flight(s, MessageOf(r), choice) == Sent(s.(command := CommandOf(after)), responses)
  {
    var next := s.(command := CommandOf(after));
    if |responses| == 1 {
      SentTwo(next, responses[0], responses[0]);
    } else if |responses| == 2 {
      assert responses == [responses[0], responses[1]];
      SentTwo(next, responses[0], responses[1]);
    }
    var choice := ChoiceFor(responses);
    assert s.(command := s.command) == s;
    assert P.Flight(s, MessageOf(r), choice) == Sent(next, responses);
  }

  function ChoiceFor(responses: seq<F.Response>): P.Choice {
    if responses == [] then P.Start
    else
      match responses[0]
      case Ok(_) => P.Accept
      case Err(_, code) => P.Reject(code)
      case Value(_, _) => P.Measure
  }

  /** Ending the active command is the protocol's step that finishes it. */
  lemma ClosingIsFinish(s: P.System, before: F.Doing, after: F.Doing, responses: seq<F.Response>)
    requires s.command == CommandOf(before) && F.Closes(before, after, responses) && responses != []
    ensures s.command.Active? && exists failure ::
              P.Finish(s, failure) ==
              P.Emit(s.(command := CommandOf(after)), ReplyOf(responses[0]), s.command.reset)
  {
    var failure := if responses[0].Ok? then None else Some(responses[0].code);
    assert P.Finish(s, failure) == P.Emit(s.(command := CommandOf(after)), ReplyOf(responses[0]), s.command.reset);
  }
}
