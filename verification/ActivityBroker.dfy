/**
 The mission side of the runtime transport: one shared field between the flight
 controller and an evaluator, the attempt counter, and the requests answered from them.
 */
module ActivityBroker {

  const COUNTER_MAX := 0xFFFF_FFFF_FFFF_FFFF

  /** The status word of an outcome; anything but the three known words is refused by its readers. */
  datatype Status = VerdictAchieved | VerdictNotAchieved | VerdictInterrupted | UnknownStatus

  /** What the shared field can hold, as its readers parse it. */
  datatype Field =
    | Attempt(attempt: nat)
    | Completion(attempt: nat, oracle: string)
    | FailureProbe(attempt: nat, oracle: string)
    | Outcome(attempt: nat, oracle: string, status: Status)
    | Unreadable

  /** Messages from the Robot Window; a malformed mission request carries an unsafe oracle. */
  datatype Message =
    | Hello
    | Complete(id: int, oracle: string)
    | Failure(id: int, oracle: string)
    | Query(id: int, oracle: string)
    | Reset(id: int)
    | Stop(id: int)
    | Action(id: int)
    | File

  datatype Reply =
    | Ready
    | Ok(id: int)
    | Err(id: int, code: string)
    | Value(id: int)
    | State(id: int, status: Status)

  predicate SafeChar(c: char) {
    '0' <= c <= '9' || 'A' <= c <= 'Z' || 'a' <= c <= 'z' || c == '_' || c == '-' || c == '.'
  }

  predicate SafeOracle(oracle: string) {
    0 < |oracle| <= 63 && forall i :: 0 <= i < |oracle| ==> SafeChar(oracle[i])
  }

  /** A safe oracle has 1 to 63 letters, digits, underscores, hyphens and dots. */
  lemma SafeOracleMeans(oracle: string)
    ensures SafeOracle(oracle) <==>
              && oracle != [] && |oracle| < 64
              && forall c :: c in oracle ==>
                   48 <= c as int <= 57 || 65 <= c as int <= 90 || 97 <= c as int <= 122 || c as int in {45, 46, 95}
  {
    if SafeOracle(oracle) {
      forall c | c in oracle
        ensures SafeChar(c)
      {
        var i :| 0 <= i < |oracle| && oracle[i] == c;
      }
    } else if oracle != [] && |oracle| <= 63 {
      var i :| 0 <= i < |oracle| && !SafeChar(oracle[i]);
      assert oracle[i] in oracle;
    }
  }

  predicate Verdict(status: Status) {
    !status.UnknownStatus?
  }

  // ---------- specification of the hooks ----------

  /** The broker's own variables; `available` says whether the field could be found. */
  datatype Counter = Counter(attempt: nat, pendingReset: int, initialized: bool, available: bool)

  /** What one received message does: new variables, new field, replies sent here, and whether flight sees it. */
  datatype Received = Received(counter: Counter, field: Field, replies: seq<Reply>, forward: bool)

  function Ensured(c: Counter, f: Field): (Counter, Field) {
    if c.initialized then (c, f)
    else (c.(initialized := true), if c.available then Attempt(c.attempt) else f)
  }

  predicate CurrentOutcome(c: Counter, f: Field, oracle: string) {
    c.available && SafeOracle(oracle) && f.Outcome? && f.attempt == c.attempt && f.oracle == oracle && Verdict(f.status)
  }

  function Mission(c: Counter, f: Field, id: int, oracle: string, marker: Field): Received {
    if id < 1 then Received(c, f, [], false)
    else if !SafeOracle(oracle) then Received(c, f, [Err(id, "INVALID_MISSION_REQUEST")], false)
    else if !c.available then Received(c, f, [Err(id, "OUTCOME_UNAVAILABLE")], false)
    else Received(c, if CurrentOutcome(c, f, oracle) then f else marker, [Ok(id)], false)
  }

  function Answer(c: Counter, f: Field, id: int, oracle: string): Reply {
    if !c.available || !f.Outcome? then Err(id, "OUTCOME_UNAVAILABLE")
    else if f.attempt != c.attempt then Err(id, "STALE_OUTCOME")
    else if f.oracle != oracle then Err(id, "OUTCOME_MISMATCH")
    else if !Verdict(f.status) then Err(id, "INVALID_OUTCOME")
    else State(id, f.status)
  }

  function Receive(c0: Counter, f0: Field, m: Message): Received {
    var (c, f) := Ensured(c0, f0);
    match m
    case Hello => Received(c, f, [Ready], false)
    case Complete(id, oracle) => Mission(c, f, id, oracle, Completion(c.attempt, oracle))
    case Failure(id, oracle) => Mission(c, f, id, oracle, FailureProbe(c.attempt, oracle))
    case Query(id, oracle) =>
      if id < 1 then Received(c, f, [], false)
      else if !SafeOracle(oracle) then Received(c, f, [Err(id, "INVALID_OUTCOME_REQUEST")], false)
      else Received(c, f, [Answer(c, f, id, oracle)], false)
    case Reset(id) =>
      Received(if id >= 1 && c.pendingReset < 1 then c.(pendingReset := id) else c, f, [], true)
    case Stop(_) => Received(c, f, [], true)
    case Action(_) => Received(c, f, [], true)
    case File => Received(c, f, [], false)
  }

  function NextAttempt(n: nat): nat {
    if n == COUNTER_MAX then 0 else n + 1
  }

  /** What a reply sent by flight does on its way out. */
  function Observe(c: Counter, f: Field, r: Reply): (Counter, Field) {
    if c.pendingReset < 1 || r == Ready || r.id != c.pendingReset then (c, f)
    else if r.Ok? then
      var (next, field) := Ensured(c.(attempt := NextAttempt(c.attempt)), f);
      (next.(pendingReset := -1), if next.available then Attempt(next.attempt) else field)
    else (c.(pendingReset := -1), f)
  }

  // ---------- the hooks themselves ----------

  /** The shared field: one variable with two separate writers. */
  class Channel {
    var data: Field

    constructor (initial: Field)
      ensures data == initial
    {
      data := initial;
    }
  }

  class Broker {
    const channel: Channel
    const available: bool
    var activityAttempt: nat
    var pendingReset: int
    var initialized: bool

    constructor (channel: Channel, available: bool)
      ensures this.channel == channel && this.available == available
      ensures Variables() == Counter(1, -1, false, available)
    {
      this.channel, this.available := channel, available;
      activityAttempt, pendingReset, initialized := 1, -1, false;
    }

    function Variables(): Counter
      reads this
    {
      Counter(activityAttempt, pendingReset, initialized, available)
    }

    method EnsureChannel() returns (ok: bool)
      modifies this`initialized, channel
      ensures ok == available && (Variables(), channel.data) == Ensured(old(Variables()), old(channel.data))
    {
      if initialized {
        return available;
      }
      initialized := true;
      if !available {
        return false;
      }
      channel.data := Attempt(activityAttempt);
      return true;
    }

    method HasCurrentOutcome(oracle: string) returns (has: bool)
      ensures has == CurrentOutcome(Variables(), channel.data, oracle)
    {
      if !available || !SafeOracle(oracle) {
        return false;
      }
      if !channel.data.Outcome? {
        return false;
      }
      if channel.data.attempt != activityAttempt || channel.data.oracle != oracle {
        return false;
      }
      return Verdict(channel.data.status);
    }

    method HandleMission(id: int, oracle: string, marker: Field) returns (replies: seq<Reply>)
      requires initialized
      modifies channel
      ensures Received(Variables(), channel.data, replies, false) ==
              Mission(Variables(), old(channel.data), id, oracle, marker)
    {
      if id < 1 || !SafeOracle(oracle) {
        return if id >= 1 then [Err(id, "INVALID_MISSION_REQUEST")] else [];
      }
      if !available {
        return [Err(id, "OUTCOME_UNAVAILABLE")];
      }
      var has := HasCurrentOutcome(oracle);
      if !has {
        channel.data := marker;
      }
      return [Ok(id)];
    }

    method HandleQuery(id: int, oracle: string) returns (replies: seq<Reply>)
      ensures id < 1 ==> replies == []
      ensures id >= 1 && !SafeOracle(oracle) ==> replies == [Err(id, "INVALID_OUTCOME_REQUEST")]
      ensures id >= 1 && SafeOracle(oracle) ==> replies == [Answer(Variables(), channel.data, id, oracle)]
    {
      if id < 1 || !SafeOracle(oracle) {
        return if id >= 1 then [Err(id, "INVALID_OUTCOME_REQUEST")] else [];
      }
      if !available || !channel.data.Outcome? {
        return [Err(id, "OUTCOME_UNAVAILABLE")];
      }
      if channel.data.attempt != activityAttempt {
        return [Err(id, "STALE_OUTCOME")];
      }
      if channel.data.oracle != oracle {
        return [Err(id, "OUTCOME_MISMATCH")];
      }
      if !Verdict(channel.data.status) {
        return [Err(id, "INVALID_OUTCOME")];
      }
      return [State(id, channel.data.status)];
    }

    /** One turn of the receive loop. */
    method ReceiveText(m: Message) returns (replies: seq<Reply>, forward: bool)
      modifies this, channel
      ensures Received(Variables(), channel.data, replies, forward) == Receive(old(Variables()), old(channel.data), m)
    {
      var ok := EnsureChannel();
      match m
      case Hello =>
        return [Ready], false;
      case Complete(id, oracle) =>
        replies := HandleMission(id, oracle, Completion(activityAttempt, oracle));
        return replies, false;
      case Failure(id, oracle) =>
        replies := HandleMission(id, oracle, FailureProbe(activityAttempt, oracle));
        return replies, false;
      case Query(id, oracle) =>
        replies := HandleQuery(id, oracle);
        return replies, false;
      case Reset(id) =>
        if id >= 1 && pendingReset < 1 {
          pendingReset := id;
        }
        return [], true;
      case Stop(_) =>
        return [], true;
      case Action(_) =>
        return [], true;
      case File =>
        return [], false;
    }

    /** The send hook: watches for the answer to the pending RESET. */
    method ObserveResponse(r: Reply)
      modifies this, channel
      ensures (Variables(), channel.data) == Observe(old(Variables()), old(channel.data), r)
    {
      if pendingReset < 1 || r == Ready || r.id != pendingReset {
        return;
      }
      if r.Ok? {
        if activityAttempt == COUNTER_MAX {
          activityAttempt := 0;
        } else {
          activityAttempt := activityAttempt + 1;
        }
        var ok := EnsureChannel();
        if ok {
          channel.data := Attempt(activityAttempt);
        }
      }
      pendingReset := -1;
    }
  }
}
