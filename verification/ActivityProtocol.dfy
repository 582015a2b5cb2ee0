/**
 Attempts and verdicts under arbitrary interleaving: the flight controller with its broker,
 and any number of evaluators that read the shared field at one moment and write it at another.
 */
module ActivityProtocol {
  import opened Options
  import opened ActivityBroker

  // ---------- the evaluator, seen from the field ----------

  /** The evaluator variables that gate its verdict. */
  datatype Gate = Gate(attempt: Option<nat>, completionSeen: bool, reported: bool)

  /** Reading the field first: a new attempt marker starts a fresh attempt. */
  function Refreshed(g: Gate, data: Field): Gate {
    if data.Attempt? && g.attempt != Some(data.attempt) then Gate(Some(data.attempt), false, false) else g
  }

  /**
   What an evaluator may do in one step on the field content it read: its variables, and the verdict it will
   write.
   */
  predicate GateStep(oracle: string, data: Field, g: Gate, g': Gate, verdict: Option<Status>) {
    var current := Refreshed(g, data);
    if current.attempt.None? || current.reported then g' == current && verdict == None
    else
      var completed := current.completionSeen || data == Completion(current.attempt.value, oracle);
      match verdict
      case None => g' == current || g' == current.(completionSeen := completed)
      case Some(status) =>
        && g'.attempt == current.attempt && g'.reported
           && (g'.completionSeen == current.completionSeen || g'.completionSeen == completed)
        && (completed || (data == FailureProbe(current.attempt.value, oracle) && status == VerdictNotAchieved))
        && (status == VerdictAchieved || status == VerdictNotAchieved)
  }

  /** A verdict on a completed attempt, or a failed one that is probed, is a step of the gate. */
  lemma GateAllows(oracle: string, data: Field, g: Gate, g': Gate, verdict: Option<Status>)
    requires g.attempt.Some? && !g.reported && (data.Attempt? ==> data.attempt == g.attempt.value)
    requires g'.attempt == g.attempt && (g'.reported <==> verdict.Some?)
    requires g'.completionSeen == g.completionSeen || (g'.completionSeen && data == Completion(g.attempt.value, oracle))
    requires verdict.Some? ==>
               g'.completionSeen || (data == FailureProbe(g.attempt.value, oracle)
                   && verdict.value == VerdictNotAchieved)
    requires verdict.Some? ==> verdict.value == VerdictAchieved || verdict.value == VerdictNotAchieved
    ensures GateStep(oracle, data, g, g', verdict)
  {
  }

  /**
   What the gate lets through: a verdict only once per attempt, after its completion marker, or a failure on its
   failure probe; completion is seen only from its marker, and stays seen.
   */
  lemma GateMeans(oracle: string, data: Field, g: Gate, g': Gate, verdict: Option<Status>)
    requires GateStep(oracle, data, g, g', verdict) && (data.Attempt? ==> g.attempt == Some(data.attempt))
    ensures g'.attempt == g.attempt && (g'.reported <==> g.reported || verdict.Some?)
    ensures verdict.Some? ==> !g.reported && g.attempt.Some?
    ensures verdict == Some(VerdictAchieved) ==> g.completionSeen || data == Completion(g.attempt.value, oracle)
    ensures verdict.Some? && !g.completionSeen && data != Completion(g.attempt.value, oracle) ==>
              verdict.value == VerdictNotAchieved && data == FailureProbe(g.attempt.value, oracle)
    ensures verdict.Some? ==> verdict.value == VerdictAchieved || verdict.value == VerdictNotAchieved
    ensures g.completionSeen ==> g'.completionSeen
    ensures g'.completionSeen && !g.completionSeen ==>
              g.attempt.Some? && data == Completion(g.attempt.value, oracle)
  {
  }

  /** Acting on the refreshed variables is acting on the original ones; doing nothing is always allowed. */
  lemma RefreshedGate(oracle: string, data: Field, g: Gate)
    ensures Refreshed(Refreshed(g, data), data) == Refreshed(g, data)
    ensures forall g', v :: GateStep(oracle, data, Refreshed(g, data), g', v) ==> GateStep(oracle, data, g, g', v)
    ensures GateStep(oracle, data, g, Refreshed(g, data), None)
  {
  }

  // ---------- the whole system ----------

  /** The command flight is executing. */
  datatype Command = Idle | Active(id: int, reset: bool)

  /** A verdict about one attempt, by the evaluator of one oracle. */
  datatype Published = Published(attempt: nat, oracle: string, status: Status)

  /**
   The live state, and the history of verdicts, answers, identifiers and confirmed RESETs. Any number of
   evaluators share the field, one for each oracle, each with its own variables and at most one verdict
   decided but not yet written.
   */
  datatype System = System(
    counter: Counter, field: Field, command: Command, gates: map<string, Gate>, writing: map<string, Published>,
    used: set<int>, resets: nat, published: seq<Published>, answered: seq<Published>)

  function Initial(available: bool): System {
    System(Counter(1, -1, false, available), Unreadable, Idle, map[], map[], {}, 0, [], [])
  }

  function GateOf(s: System, oracle: string): Gate {
    if oracle in s.gates then s.gates[oracle] else Gate(None, false, false)
  }

  /** A reply from flight leaves through the send hook; a confirmed RESET is counted. */
  function Emit(s: System, r: Reply, reset: bool): System {
    var (c, f) := Observe(s.counter, s.field, r);
    s.(counter := c, field := f, resets := if reset && r.Ok? then s.resets + 1 else s.resets)
  }

  /** What flight may do at once with a request it sees: reply, or start executing it. */
  datatype Choice = Reject(code: string) | Accept | Measure | Start

  function Flight(s: System, m: Message, choice: Choice): System {
    if m.File? || m.Hello? || m.id < 1 then s
    else if m.Stop? then
      if s.command.Active? && s.command.reset then Emit(s, Err(m.id, "NOT_RUNNING"), false)
      else
        var stopped := if s.command.Active? then Emit(s, Err(s.command.id, "USER_STOPPED"), false) else s;
        Emit(stopped.(command := Idle), Ok(m.id), false)
    else if s.command.Active? then Emit(s, Err(m.id, if choice.Reject? then choice.code else "BUSY"), false)
    else if m.Reset? then s.(command := Active(m.id, true))
    else
      match choice
      case Reject(code) => Emit(s, Err(m.id, code), false)
      case Accept => Emit(s, Ok(m.id), false)
      case Measure => Emit(s, Value(m.id), false)
      case Start => s.(command := Active(m.id, false))
  }

  function Identifier(m: Message): set<int> {
    if m.File? || m.Hello? then {} else {m.id}
  }

  function Logged(s: System, r: Received, m: Message): seq<Published> {
    if m.Query? && r.replies != [] && r.replies[0].State? then
      s.answered + [Published(r.counter.attempt, m.oracle, r.replies[0].status)]
    else s.answered
  }

  function Deliver(s: System, m: Message, choice: Choice): System {
    var r := Receive(s.counter, s.field, m);
    var t := s.(counter := r.counter, field := r.field, used := s.used + Identifier(m), answered := Logged(s, r, m));
    if r.forward then Flight(t, m, choice) else t
  }

  function Finish(s: System, failure: Option<string>): System
    requires s.command.Active?
  {
    Emit(s.(command := Idle), if failure.None? then Ok(s.command.id)
        else Err(s.command.id, failure.value), s.command.reset)
  }

  function Write(s: System, oracle: string): System
    requires oracle in s.writing
  {
    var p := s.writing[oracle];
    s.(field := Outcome(p.attempt, p.oracle, p.status), writing := s.writing - {oracle}, published := s.published + [p])
  }

  /** An evaluator's variables after a step on the field it read, with its verdict decided but not yet written. */
  function Decide(s: System, oracle: string, g: Gate, v: Option<Status>): System {
    s.(gates := s.gates[oracle := g],
       writing := if v.Some? && g.attempt.Some? then s.writing[oracle := Published(g.attempt.value, oracle, v.value)]
           else s.writing)
  }

  /** One step of any participant. Request identifiers are fresh and the counter does not wrap. */
  ghost predicate Next(s: System, t: System) {
    || (exists m, choice :: Identifier(m) !! s.used && t == Deliver(s, m, choice))
    || (s.command.Active? && s.counter.attempt < COUNTER_MAX && exists failure :: t == Finish(s, failure))
    || (exists o, g, v :: Decides(s, o, g, v) && t == Decide(s, o, g, v))
    || (exists o :: o in s.writing && t == Write(s, o))
  }

  /** The evaluator of an oracle may take this step on what it reads now. */
  predicate Decides(s: System, oracle: string, g: Gate, v: Option<Status>) {
    oracle !in s.writing && GateStep(oracle, s.field, GateOf(s, oracle), g, v)
  }

  ghost predicate Run(states: seq<System>) {
    && |states| > 0 && (exists available :: states[0] == Initial(available))
    && forall i :: 0 < i < |states| ==> Next(states[i - 1], states[i])
  }

  // ---------- the invariant ----------

  predicate CounterConsistent(s: System) {
    && s.counter.attempt == s.resets + 1
    && s.counter.pendingReset == (if s.command.Active? && s.command.reset then s.command.id else -1)
    && (s.command.Active? ==> s.command.id >= 1 && s.command.id in s.used)
  }

  predicate FieldConsistent(s: System) {
    match s.field
    case Attempt(n) => n == s.counter.attempt && s.counter.available && s.counter.initialized
    case Outcome(n, o, status) => Published(n, o, status) in s.published && Verdict(status)
    case _ => true
  }

  /** Each evaluator's verdicts are about ever later attempts. */
  predicate Increasing(ps: seq<Published>) {
    forall i, j :: 0 <= i < j < |ps| && ps[i].oracle == ps[j].oracle ==> ps[i].attempt < ps[j].attempt
  }

  /** Every verdict of this oracle is about an attempt before n. */
  predicate AllBelow(ps: seq<Published>, oracle: string, n: nat) {
    forall i :: 0 <= i < |ps| && ps[i].oracle == oracle ==> ps[i].attempt < n
  }

  predicate NoneBy(ps: seq<Published>, oracle: string) {
    forall i :: 0 <= i < |ps| ==> ps[i].oracle != oracle
  }

  predicate GateConsistent(s: System, oracle: string) {
    match GateOf(s, oracle).attempt
    case None => oracle !in s.writing && NoneBy(s.published, oracle)
    case Some(a) =>
      && a <= s.counter.attempt && s.counter.initialized
      && (if oracle in s.writing then
            && s.writing[oracle].attempt == a && s.writing[oracle].oracle == oracle && Verdict(s.writing[oracle].status)
            && GateOf(s, oracle).reported && AllBelow(s.published, oracle, a)
          else if GateOf(s, oracle).reported then AllBelow(s.published, oracle, a + 1)
          else AllBelow(s.published, oracle, a))
  }

  predicate AnswersConsistent(answered: seq<Published>, published: seq<Published>) {
    forall i :: 0 <= i < |answered| ==> answered[i] in published
  }

  ghost predicate Invariant(s: System) {
    && CounterConsistent(s)
    && FieldConsistent(s)
    && Increasing(s.published)
    && (forall o: string :: GateConsistent(s, o))
    && AnswersConsistent(s.answered, s.published)
  }

  // ---------- preservation ----------

  /** Nothing but the counter and the field matters to the evaluators, and the counter only grows. */
  lemma GatesKept(s: System, t: System)
    requires forall o: string :: GateConsistent(s, o)
    requires t.gates == s.gates && t.writing == s.writing && t.published == s.published
    requires s.counter.attempt <= t.counter.attempt && (s.counter.initialized ==> t.counter.initialized)
    ensures forall o: string :: GateConsistent(t, o)
  {
    forall o: string
      ensures GateConsistent(t, o)
    {
      assert GateConsistent(s, o);
    }
  }

  lemma FlightKeepsInvariant(s: System, t: System, m: Message, choice: Choice)
    requires Invariant(s) && Identifier(m) !! s.used
    requires t == s.(counter := Receive(s.counter, s.field, m).counter, field := Receive(s.counter, s.field, m).field,
                     used := s.used + Identifier(m))
    requires m.Reset? || m.Stop? || m.Action?
    ensures Invariant(Flight(t, m, choice))
  {
    hide Increasing;
    hide AnswersConsistent;
    hide GateConsistent;
    assert m.id in Identifier(m);
    GatesKept(s, Flight(t, m, choice));
  }

  lemma DeliverKeepsInvariant(s: System, m: Message, choice: Choice)
    requires Invariant(s) && Identifier(m) !! s.used
    ensures Invariant(Deliver(s, m, choice))
  {
    hide Increasing;
    hide GateConsistent;
    var r := Receive(s.counter, s.field, m);
    if r.forward {
      assert Logged(s, r, m) == s.answered;
      var t := s.(counter := r.counter, field := r.field, used := s.used + Identifier(m));
      FlightKeepsInvariant(s, t, m, choice);
    } else {
      GatesKept(s, Deliver(s, m, choice));
    }
  }

  lemma FinishKeepsInvariant(s: System, failure: Option<string>)
    requires Invariant(s) && s.command.Active? && s.counter.attempt < COUNTER_MAX
    ensures Invariant(Finish(s, failure))
  {
    hide Increasing;
    hide AnswersConsistent;
    hide GateConsistent;
    GatesKept(s, Finish(s, failure));
  }

  lemma DecisionKeepsInvariant(s: System, oracle: string, g: Gate, v: Option<Status>)
    requires Invariant(s) && Decides(s, oracle, g, v)
    ensures Invariant(Decide(s, oracle, g, v))
  {
    hide Increasing;
    hide AnswersConsistent;
    var t := Decide(s, oracle, g, v);
    forall o: string
      ensures GateConsistent(t, o)
    {
      assert GateConsistent(s, o);
      assert GateConsistent(s, oracle);
    }
  }

  lemma WriteKeepsInvariant(s: System, oracle: string)
    requires Invariant(s) && oracle in s.writing
    ensures Invariant(Write(s, oracle))
  {
    var t := Write(s, oracle);
    assert GateConsistent(s, oracle);
    assert t.published[|t.published| - 1] == s.writing[oracle];
    forall o: string
      ensures GateConsistent(t, o)
    {
      assert GateConsistent(s, o);
    }
    forall i | 0 <= i < |t.answered|
      ensures t.answered[i] in t.published
    {
      assert s.answered[i] in s.published;
    }
  }

  lemma NextKeepsInvariant(s: System, t: System)
    requires Invariant(s) && Next(s, t)
    ensures Invariant(t)
  {
    hide Invariant;
    hide Decides;
    hide Deliver;
    hide Decide;
    if m, choice :| Identifier(m) !! s.used && t == Deliver(s, m, choice) {
      DeliverKeepsInvariant(s, m, choice);
    } else if s.command.Active? && s.counter.attempt < COUNTER_MAX && exists failure :: t == Finish(s, failure) {
      var failure :| t == Finish(s, failure);
      FinishKeepsInvariant(s, failure);
    } else if o, g, v :| Decides(s, o, g, v) && t == Decide(s, o, g, v) {
      DecisionKeepsInvariant(s, o, g, v);
    } else {
      var o :| o in s.writing && t == Write(s, o);
      WriteKeepsInvariant(s, o);
    }
  }

  lemma {:induction false} RunKeepsInvariant(states: seq<System>)
    requires Run(states)
    ensures forall s :: s in states ==> Invariant(s)
  {
    hide Next;
    hide Invariant;
    var last := states[|states| - 1];
    if |states| > 1 {
      var front := states[..|states| - 1];
      RunKeepsInvariant(front);
      assert front[|front| - 1] in front;
      NextKeepsInvariant(front[|front| - 1], last);
      assert states == front + [last];
    } else {
      var available :| states[0] == Initial(available);
      InitialInvariant(available);
    }
  }

  lemma InitialInvariant(available: bool)
    ensures Invariant(Initial(available))
  {
  }

  // ---------- what the mission requests do ----------

  /**
   An acknowledged COMPLETE leaves the completion marker of this attempt and oracle in the field, and a FAILURE the
   failure probe, unless the verdict on them is already there; what is refused leaves the field alone.
   */
  lemma MissionMarks(s: System, id: int, oracle: string, choice: Choice)
    requires s.counter.initialized && !(s.field.Outcome? && s.field.attempt == s.counter.attempt
                                        && s.field.oracle == oracle && !s.field.status.UnknownStatus?)
    ensures var accepted := id >= 1 && SafeOracle(oracle) && s.counter.available;
            && (Deliver(s, Complete(id, oracle), choice).field
                == if accepted then Completion(s.counter.attempt, oracle) else s.field)
            && (Deliver(s, Failure(id, oracle), choice).field
                == if accepted then FailureProbe(s.counter.attempt, oracle) else s.field)
            && (Receive(s.counter, s.field, Complete(id, oracle)).replies == [Ok(id)] <==> accepted)
            && (Receive(s.counter, s.field, Failure(id, oracle)).replies == [Ok(id)] <==> accepted)
  {
    hide SafeOracle;
    assert Deliver(s, Complete(id, oracle), choice).field == Receive(s.counter, s.field, Complete(id, oracle)).field;
    assert Deliver(s, Failure(id, oracle), choice).field == Receive(s.counter, s.field, Failure(id, oracle)).field;
  }

  /** A verdict in the field outlives every mission request about its attempt and oracle, and is what QUERY answers. */
  lemma VerdictStays(s: System, id: int, choice: Choice)
    requires s.counter.initialized && s.counter.available && s.field.Outcome? && !s.field.status.UnknownStatus?
    requires s.field.attempt == s.counter.attempt && SafeOracle(s.field.oracle)
    ensures var o := s.field.oracle;
            && Deliver(s, Complete(id, o), choice).field == s.field
            && Deliver(s, Failure(id, o), choice).field == s.field
            && Deliver(s, Query(id, o), choice).field == s.field
            && (id >= 1 ==> Receive(s.counter, s.field, Query(id, o)).replies == [State(id, s.field.status)])
  {
    hide SafeOracle;
  }

  // ---------- what every run satisfies ----------

  /**
   Attempt numbers count confirmed RESETs, and a STATE answer for an oracle repeats the one verdict that the
   evaluator of that oracle published for that attempt.
   */
  lemma VerdictsAreFaithful(states: seq<System>, s: System)
    requires Run(states) && s in states
    ensures s.counter.attempt == 1 + s.resets
    ensures forall a :: a in s.answered ==> a in s.published
    ensures forall p, q ::
              p in s.published && q in s.published && p.attempt == q.attempt && p.oracle == q.oracle ==> p == q
    ensures forall a, b ::
              a in s.answered && b in s.answered && a.attempt == b.attempt && a.oracle == b.oracle ==> a == b
  {
    RunKeepsInvariant(states);
    forall p, q | p in s.published && q in s.published && p.attempt == q.attempt && p.oracle == q.oracle
      ensures p == q
    {
      var i :| 0 <= i < |s.published| && s.published[i] == p;
      var j :| 0 <= j < |s.published| && s.published[j] == q;
    }
  }
}
