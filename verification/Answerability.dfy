/**
 When a STATE answer can still be had in an attempt: exactly, for every oracle and over every run.
 Evaluators read the shared field at one moment and write it at another, so a marker can be overwritten
 before it is read, and a verdict before it is queried.
 */
module Answerability {
  import opened Options
  import opened ActivityBroker
  import opened ActivityProtocol

  /** The field holds the verdict on the current attempt. */
  predicate HoldsVerdict(s: System, oracle: string) {
    s.field.Outcome? && s.field.attempt == s.counter.attempt && s.field.oracle == oracle
  }

  /** The evaluator of this oracle has not read the marker of the current attempt. */
  predicate Unread(s: System, oracle: string) {
    GateOf(s, oracle).attempt != Some(s.counter.attempt)
  }

  /**
   A verdict on the current attempt is in the field, is being written, or is still open: its evaluator has
   read the marker and not reported, or finds the marker in the field and has no older verdict to write first.
   */
  predicate Answerable(s: System, oracle: string) {
    && s.counter.available && SafeOracle(oracle)
    && (|| !s.counter.initialized
        || HoldsVerdict(s, oracle)
        || if oracle in s.writing then s.writing[oracle].attempt == s.counter.attempt
           else if Unread(s, oracle) then s.field.Attempt?
           else !GateOf(s, oracle).reported)
  }

  /** A step writes over the verdict, or over the marker that this evaluator still has to read. */
  predicate Overwrites(s: System, t: System, oracle: string) {
    && t.counter.initialized
    && if HoldsVerdict(s, oracle) then t.field != s.field else Unread(s, oracle) && !t.field.Attempt?
  }

  /** No further answer for this oracle. */
  predicate Unanswered(before: seq<Published>, after: seq<Published>, oracle: string) {
    before <= after && forall i :: |before| <= i < |after| ==> after[i].oracle != oracle
  }

  // ---------- what a step that confirms no RESET changes ----------

  /** The field after a message: untouched, a marker of the Robot Window, or the first attempt marker. */
  predicate FieldMoves(s: System, t: System) {
    if s.counter.initialized || !s.counter.available || !t.counter.initialized then
      t.field == s.field || t.field.Completion? || t.field.FailureProbe?
    else t.field == Attempt(s.counter.attempt) || t.field.Completion? || t.field.FailureProbe?
  }

  predicate SameEvaluators(s: System, t: System) {
    && t.gates == s.gates && t.writing == s.writing && t.published == s.published
    && t.counter.attempt == s.counter.attempt && t.counter.available == s.counter.available
    && (s.counter.initialized ==> t.counter.initialized)
  }

  /** At most one answer, taken from the verdict that the field holds. */
  predicate AnswersFromField(s: System, t: System) {
    || t.answered == s.answered
    || (s.counter.available && s.counter.initialized && s.field.Outcome? && s.field.attempt == s.counter.attempt
        && SafeOracle(s.field.oracle)
        && t.answered == s.answered + [Published(s.field.attempt, s.field.oracle, s.field.status)])
  }

  lemma DeliveryMoves(s: System, m: Message, choice: Choice)
    requires Invariant(s) && Identifier(m) !! s.used && Deliver(s, m, choice).resets == s.resets
    ensures SameEvaluators(s, Deliver(s, m, choice)) && FieldMoves(s, Deliver(s, m, choice))
    ensures AnswersFromField(s, Deliver(s, m, choice))
  {
    hide Invariant;
    hide Flight;
    hide SafeOracle;
    var r := Receive(s.counter, s.field, m);
    var t := s.(counter := r.counter, field := r.field, used := s.used + Identifier(m), answered := Logged(s, r, m));
    assert SameEvaluators(s, t) && FieldMoves(s, t) && AnswersFromField(s, t);
    if r.forward {
      ForwardedMoves(s, t, m, choice);
    }
  }

  /** Flight replies or starts; none of its replies is the one that confirms a RESET. */
  lemma ForwardedMoves(s: System, t: System, m: Message, choice: Choice)
    requires Invariant(s) && Identifier(m) !! s.used && (m.Reset? || m.Stop? || m.Action?)
    requires t.counter == Receive(s.counter, s.field, m).counter && t.command == s.command
    ensures Flight(t, m, choice) == t.(command := Flight(t, m, choice).command, counter := Flight(t, m, choice).counter)
    ensures var c := Flight(t, m, choice).counter; c == t.counter.(pendingReset := c.pendingReset)
  {
    hide FieldConsistent;
    hide Increasing;
    hide AnswersConsistent;
    hide GateConsistent;
    assert m.id in Identifier(m);
  }

  lemma FinishMoves(s: System, failure: Option<string>)
    requires Invariant(s) && s.command.Active? && Finish(s, failure).resets == s.resets
    ensures SameEvaluators(s, Finish(s, failure)) && Finish(s, failure).field == s.field
            && Finish(s, failure).answered == s.answered
    ensures Finish(s, failure).counter.initialized == s.counter.initialized
  {
    hide Increasing;
    hide AnswersConsistent;
    hide GateConsistent;
  }

  /**
   A verdict in the field leaves its evaluator with nothing to do; before the first message there is nothing at
   all.
   */
  lemma Standing(s: System, oracle: string)
    requires Invariant(s)
    ensures HoldsVerdict(s, oracle) ==>
              s.counter.initialized && oracle !in s.writing && !Unread(s, oracle) && GateOf(s, oracle).reported
    ensures !s.counter.initialized ==>
              GateOf(s, oracle).attempt.None? && oracle !in s.writing && !s.field.Attempt?
    ensures oracle in s.writing ==> GateOf(s, oracle).attempt == Some(s.writing[oracle].attempt)
  {
    hide AnswersConsistent;
    hide Increasing;
    assert GateConsistent(s, oracle);
  }

  // ---------- one step ----------

  lemma AcrossMove(s: System, t: System, oracle: string)
    requires Invariant(s) && SameEvaluators(s, t) && FieldMoves(s, t)
    ensures Answerable(t, oracle) <==> Answerable(s, oracle) && !Overwrites(s, t, oracle)
  {
    Standing(s, oracle);
    hide SafeOracle;
    hide Invariant;
  }

  lemma AcrossDecision(s: System, o: string, g: Gate, v: Option<Status>, oracle: string)
    requires Invariant(s) && Decides(s, o, g, v)
    ensures var t := Decide(s, o, g, v); Answerable(t, oracle) <==> Answerable(s, oracle) && !Overwrites(s, t, oracle)
  {
    Standing(s, oracle);
    assert GateConsistent(s, oracle);
    hide SafeOracle;
    hide Increasing;
    hide AnswersConsistent;
    hide GateConsistent;
  }

  lemma AcrossWrite(s: System, o: string, oracle: string)
    requires Invariant(s) && o in s.writing
    ensures var t := Write(s, o); Answerable(t, oracle) <==> Answerable(s, oracle) && !Overwrites(s, t, oracle)
  {
    Standing(s, oracle);
    assert GateConsistent(s, oracle) && GateConsistent(s, o);
    hide SafeOracle;
    hide Increasing;
    hide AnswersConsistent;
  }

  /** A step without a confirmed RESET loses the answer exactly when it overwrites, and never wins it back. */
  lemma AnswerableStep(s: System, t: System, oracle: string)
    requires Invariant(s) && Next(s, t) && t.resets == s.resets
    ensures Answerable(t, oracle) <==> Answerable(s, oracle) && !Overwrites(s, t, oracle)
    ensures !Answerable(s, oracle) ==> Unanswered(s.answered, t.answered, oracle)
  {
    hide Invariant;
    hide Decides;
    hide Deliver;
    hide Finish;
    hide Answerable;
    hide Overwrites;
    hide FieldMoves;
    if m, choice :| Identifier(m) !! s.used && t == Deliver(s, m, choice) {
      DeliveryMoves(s, m, choice);
      AcrossMove(s, t, oracle);
      AnswerNeedsVerdict(s, t, oracle);
    } else if s.command.Active? && exists failure :: t == Finish(s, failure) {
      var failure :| t == Finish(s, failure);
      FinishMoves(s, failure);
      SameFieldMoves(s, t);
      AcrossMove(s, t, oracle);
    } else if o, g, v :| Decides(s, o, g, v) && t == Decide(s, o, g, v) {
      AcrossDecision(s, o, g, v, oracle);
    } else {
      var o :| o in s.writing && t == Write(s, o);
      AcrossWrite(s, o, oracle);
    }
  }

  lemma SameFieldMoves(s: System, t: System)
    requires t.field == s.field && t.counter.initialized == s.counter.initialized
    ensures FieldMoves(s, t)
  {
  }

  lemma AnswerNeedsVerdict(s: System, t: System, oracle: string)
    requires AnswersFromField(s, t)
    ensures !Answerable(s, oracle) ==> Unanswered(s.answered, t.answered, oracle)
  {
    hide SafeOracle;
  }

  /** A confirmed RESET opens the next attempt to every oracle that has no older verdict to write first. */
  lemma AnswerableAfterReset(s: System, t: System, oracle: string)
    requires Invariant(s) && Next(s, t) && t.resets != s.resets
    ensures t.counter.attempt == s.counter.attempt + 1
    ensures Answerable(t, oracle) <==> t.counter.available && SafeOracle(oracle) && oracle !in t.writing
  {
    hide Decides;
    if m, choice :| Identifier(m) !! s.used && t == Deliver(s, m, choice) {
      DeliveryKeepsResets(s, m, choice);
    } else if s.command.Active? && exists failure :: t == Finish(s, failure) {
      var failure :| t == Finish(s, failure);
      assert GateConsistent(s, oracle);
      hide SafeOracle;
      hide Increasing;
      hide AnswersConsistent;
      hide GateConsistent;
    }
  }

  lemma DeliveryKeepsResets(s: System, m: Message, choice: Choice)
    ensures Deliver(s, m, choice).resets == s.resets
  {
  }

  // ---------- whole runs ----------

  /** No RESET is confirmed between these two positions. */
  predicate OneAttempt(states: seq<System>, n: nat, m: nat)
    requires n <= m < |states|
  {
    forall k :: n <= k <= m ==> states[k].resets == states[n].resets
  }

  predicate Overwritten(states: seq<System>, n: nat, m: nat, oracle: string)
    requires n <= m < |states|
  {
    exists k :: n < k <= m && Overwrites(states[k - 1], states[k], oracle)
  }

  /**
   In every run, an attempt is answerable at a later moment exactly when it was before and no step in between
   overwrote a marker still to be read, or the verdict; and one that is not gets no answer until the next RESET.
   */
  lemma {:induction false} AnswerableExactly(states: seq<System>, n: nat, m: nat, oracle: string)
    requires Run(states) && n <= m < |states| && OneAttempt(states, n, m)
    ensures Answerable(states[m], oracle) <==> Answerable(states[n], oracle) && !Overwritten(states, n, m, oracle)
    ensures !Answerable(states[n], oracle) ==> Unanswered(states[n].answered, states[m].answered, oracle)
  {
    hide Next;
    hide Invariant;
    hide Answerable;
    hide Overwrites;
    if n < m {
      assert OneAttempt(states, n, m - 1);
      AnswerableExactly(states, n, m - 1, oracle);
      RunKeepsInvariant(states);
      assert states[m - 1] in states;
      assert Next(states[m - 1], states[m]);
      AnswerableStep(states[m - 1], states[m], oracle);
    }
  }

  // ---------- what a client can see to ----------

  /** The marker stays until it is read; from then on the field holds only this oracle's own markers and verdict. */
  predicate Undisturbed(s: System, oracle: string) {
    && s.counter.initialized
    && match s.field
       case Attempt(_) => true
       case Completion(_, o) => o == oracle && !Unread(s, oracle)
       case FailureProbe(_, o) => o == oracle && !Unread(s, oracle)
       case Outcome(n, o, _) => o == oracle && n == s.counter.attempt && !Unread(s, oracle)
       case Unreadable => false
  }

  /** The broker itself does not put a marker over a verdict of the same oracle. */
  lemma OwnMarkerYields(s: System, m: Message, choice: Choice, oracle: string)
    requires Invariant(s) && Identifier(m) !! s.used && Deliver(s, m, choice).resets == s.resets
    requires Answerable(s, oracle) && HoldsVerdict(s, oracle) && Undisturbed(Deliver(s, m, choice), oracle)
    ensures Deliver(s, m, choice).field == s.field
  {
    DeliveryMoves(s, m, choice);
    Standing(s, oracle);
    hide Invariant;
    hide Flight;
    hide SafeOracle;
    var r := Receive(s.counter, s.field, m);
    var t := s.(counter := r.counter, field := r.field, used := s.used + Identifier(m), answered := Logged(s, r, m));
    if r.forward {
      ForwardedMoves(s, t, m, choice);
    }
  }

  lemma UndisturbedStep(s: System, t: System, oracle: string)
    requires Invariant(s) && Next(s, t) && t.resets == s.resets
    requires Answerable(s, oracle) && Undisturbed(s, oracle) && Undisturbed(t, oracle)
    ensures Answerable(t, oracle)
  {
    AnswerableStep(s, t, oracle);
    Standing(s, oracle);
    hide Invariant;
    hide Decides;
    hide Deliver;
    hide Finish;
    hide SafeOracle;
    if m, choice :| Identifier(m) !! s.used && t == Deliver(s, m, choice) {
      DeliveryMoves(s, m, choice);
      if HoldsVerdict(s, oracle) {
        OwnMarkerYields(s, m, choice, oracle);
      }
    } else if s.command.Active? && exists failure :: t == Finish(s, failure) {
      var failure :| t == Finish(s, failure);
      FinishMoves(s, failure);
    }
  }

  /** An attempt left to one oracle in this way stays answerable. */
  lemma {:induction false} UndisturbedStaysAnswerable(states: seq<System>, n: nat, m: nat, oracle: string)
    requires Run(states) && n <= m < |states| && OneAttempt(states, n, m) && Answerable(states[n], oracle)
    requires forall k :: n <= k <= m ==> Undisturbed(states[k], oracle)
    ensures Answerable(states[m], oracle)
  {
    hide Next;
    hide Invariant;
    hide Answerable;
    hide Undisturbed;
    if n < m {
      assert OneAttempt(states, n, m - 1);
      UndisturbedStaysAnswerable(states, n, m - 1, oracle);
      RunKeepsInvariant(states);
      assert states[m - 1] in states;
      assert Next(states[m - 1], states[m]);
      UndisturbedStep(states[m - 1], states[m], oracle);
    }
  }

  // ---------- an answerable attempt can be answered ----------

  /** How many participants still have to act before the verdict is in the field. */
  function Distance(s: System, oracle: string): nat {
    if HoldsVerdict(s, oracle) then 0
    else if oracle in s.writing then 1
    else if !s.counter.initialized then 5
    else if Unread(s, oracle) then 4
    else if s.field == Completion(s.counter.attempt, oracle) then 2
    else 3
  }

  lemma FreshIdentifier(used: set<int>) returns (id: int)
    ensures id >= 1 && forall i :: i in used ==> i < id
  {
    id := 1;
    if some :| some in used {
      var rest := FreshIdentifier(used - {some});
      id := if some < rest then rest else some + 1;
      forall i | i in used
        ensures i < id
      {
        assert i == some || i in used - {some};
      }
    }
  }

  /** The steps of the participants, as steps of the system. */
  lemma Steps(s: System)
    ensures forall m, choice :: Identifier(m) !! s.used ==> Next(s, Deliver(s, m, choice))
    ensures forall o, g, v :: Decides(s, o, g, v) ==> Next(s, Decide(s, o, g, v))
    ensures forall o :: o in s.writing ==> Next(s, Write(s, o))
    ensures s.command.Active? && s.counter.attempt < COUNTER_MAX ==> Next(s, Finish(s, None))
  {
    hide Deliver;
    hide Decides;
    hide Decide;
    hide Write;
    hide Finish;
  }

  /** A step in the same attempt that brings the verdict nearer. */
  ghost predicate Brings(s: System, t: System, oracle: string) {
    && Next(s, t) && t.resets == s.resets && t.answered == s.answered && t.counter.attempt == s.counter.attempt
    && Answerable(t, oracle) && Distance(t, oracle) < Distance(s, oracle)
  }

  /** Somebody can always take such a step. */
  lemma Nearer(s: System, oracle: string)
    requires Invariant(s) && Answerable(s, oracle) && !HoldsVerdict(s, oracle)
    ensures exists t :: Brings(s, t, oracle)
  {
    Steps(s);
    Standing(s, oracle);
    assert GateConsistent(s, oracle);
    hide Next;
    hide Invariant;
    hide GateConsistent;
    hide SafeOracle;
    var n := s.counter.attempt;
    var t;
    if oracle in s.writing {
      t := Write(s, oracle);
    } else if !s.counter.initialized {
      t := Deliver(s, Hello, Accept);
      assert Identifier(Hello) !! s.used;
    } else if Unread(s, oracle) {
      t := Decide(s, oracle, Gate(Some(n), false, false), None);
      assert Decides(s, oracle, Gate(Some(n), false, false), None);
    } else if s.field == Completion(n, oracle) {
      t := Decide(s, oracle, Gate(Some(n), true, true), Some(VerdictNotAchieved));
      assert Decides(s, oracle, Gate(Some(n), true, true), Some(VerdictNotAchieved));
    } else {
      var id := FreshIdentifier(s.used);
      t := Deliver(s, Complete(id, oracle), Accept);
      assert Identifier(Complete(id, oracle)) !! s.used;
    }
    assert Brings(s, t, oracle);
  }

  /** Exactly one more answer: for this oracle, on the attempt that was current. */
  predicate Answers(s: System, t: System, oracle: string) {
    && |t.answered| == |s.answered| + 1 && s.answered < t.answered
    && t.answered[|s.answered|].oracle == oracle && t.answered[|s.answered|].attempt == s.counter.attempt
  }

  /** Steps from s to t, without a confirmed RESET. */
  ghost predicate Leads(path: seq<System>, s: System, t: System) {
    && path != [] && path[0] == s && path[|path| - 1] == t
    && forall i :: 0 < i < |path| ==> Next(path[i - 1], path[i]) && path[i].resets == s.resets
  }

  ghost predicate CanBeAnswered(s: System, oracle: string) {
    exists path, t :: Leads(path, s, t) && Answers(s, t, oracle)
  }

  lemma QueryAnswers(s: System, oracle: string)
    requires Invariant(s) && Answerable(s, oracle) && HoldsVerdict(s, oracle)
    ensures CanBeAnswered(s, oracle)
  {
    Steps(s);
    Standing(s, oracle);
    hide Next;
    hide Invariant;
    hide SafeOracle;
    var id := FreshIdentifier(s.used);
    var t := Deliver(s, Query(id, oracle), Accept);
    assert Identifier(Query(id, oracle)) !! s.used;
    assert Leads([s, t], s, t) && Answers(s, t, oracle);
  }

  lemma AnswerLater(s: System, t: System, oracle: string)
    requires Brings(s, t, oracle) && CanBeAnswered(t, oracle)
    ensures CanBeAnswered(s, oracle)
  {
    hide Next;
    hide Answerable;
    hide Distance;
    var path, u :| Leads(path, t, u) && Answers(t, u, oracle);
    assert Leads([s] + path, s, u) && Answers(s, u, oracle);
  }

  lemma {:induction false} AnswerFrom(s: System, oracle: string)
    requires Invariant(s) && Answerable(s, oracle)
    ensures CanBeAnswered(s, oracle)
    decreases Distance(s, oracle)
  {
    hide Invariant;
    hide Answerable;
    hide HoldsVerdict;
    hide Distance;
    hide CanBeAnswered;
    if HoldsVerdict(s, oracle) {
      QueryAnswers(s, oracle);
    } else {
      Nearer(s, oracle);
      var t :| Brings(s, t, oracle);
      NextKeepsInvariant(s, t);
      AnswerFrom(t, oracle);
      AnswerLater(s, t, oracle);
    }
  }

  /** Every reachable state that is answerable for an oracle leads, without a RESET, to a STATE answer for it. */
  lemma AnswerCanFollow(states: seq<System>, s: System, oracle: string)
    requires Run(states) && s in states && Answerable(s, oracle)
    ensures CanBeAnswered(s, oracle)
  {
    hide Answerable;
    hide CanBeAnswered;
    RunKeepsInvariant(states);
    AnswerFrom(s, oracle);
  }

  // ---------- the ways to lose it ----------

  ghost predicate Reachable(s: System) {
    exists states :: Run(states) && states[|states| - 1] == s
  }

  lemma ReachableNext(s: System, t: System)
    requires Reachable(s) && Next(s, t)
    ensures Reachable(t)
  {
    hide Next;
    var states :| Run(states) && states[|states| - 1] == s;
    var on := states + [t];
    forall i | 0 < i < |on|
      ensures Next(on[i - 1], on[i])
    {
    }
    assert Run(on);
  }

  /** The current attempt can come to where it is no longer answerable, although the field is available. */
  ghost predicate CanBeLost(oracle: string, resets: nat) {
    exists s :: Reachable(s) && s.counter.available && s.resets == resets && !Answerable(s, oracle)
  }

  /** The first attempt where its evaluator has read the marker and completion is announced. */
  function Opened(oracle: string): System {
    System(Counter(1, -1, true, true), Completion(1, oracle), Idle, map[oracle := Gate(Some(1), false, false)], map[],
           {1}, 0, [], [])
  }

  lemma OpenedIsReachable(oracle: string)
    requires SafeOracle(oracle)
    ensures Reachable(Opened(oracle))
  {
    var s0 := Initial(true);
    assert Run([s0]) && Reachable(s0);
    hide Next;
    hide Reachable;
    Steps(s0);
    var s1 := Deliver(s0, Hello, Accept);
    assert Identifier(Hello) !! s0.used;
    ReachableNext(s0, s1);
    Steps(s1);
    var s2 := Decide(s1, oracle, Gate(Some(1), false, false), None);
    assert Decides(s1, oracle, Gate(Some(1), false, false), None);
    ReachableNext(s1, s2);
    Steps(s2);
    hide SafeOracle;
    var s3 := Deliver(s2, Complete(1, oracle), Accept);
    assert Identifier(Complete(1, oracle)) !! s2.used;
    ReachableNext(s2, s3);
    assert s3 == Opened(oracle);
  }

  /** The verdict of attempt 1 is written after the RESET to attempt 2 is confirmed, over its marker. */
  lemma LateVerdictLoses(oracle: string)
    requires SafeOracle(oracle)
    ensures CanBeLost(oracle, 1)
  {
    OpenedIsReachable(oracle);
    hide Next;
    hide Reachable;
    hide SafeOracle;
    var s := Opened(oracle);
    Steps(s);
    var t := Deliver(s, Reset(2), Accept);
    assert Identifier(Reset(2)) !! s.used;
    ReachableNext(s, t);
    Steps(t);
    s := Decide(t, oracle, Gate(Some(1), true, true), Some(VerdictNotAchieved));
    assert Decides(t, oracle, Gate(Some(1), true, true), Some(VerdictNotAchieved));
    ReachableNext(t, s);
    Steps(s);
    t := Finish(s, None);
    ReachableNext(s, t);
    Steps(t);
    s := Write(t, oracle);
    ReachableNext(t, s);
  }

  /** A published verdict is overwritten by the marker of another oracle, without any RESET. */
  lemma OtherMarkerLoses(oracle: string, other: string)
    requires SafeOracle(oracle) && SafeOracle(other) && oracle != other
    ensures CanBeLost(oracle, 0)
  {
    OpenedIsReachable(oracle);
    hide Next;
    hide Reachable;
    hide SafeOracle;
    var s := Opened(oracle);
    Steps(s);
    var t := Decide(s, oracle, Gate(Some(1), true, true), Some(VerdictNotAchieved));
    assert Decides(s, oracle, Gate(Some(1), true, true), Some(VerdictNotAchieved));
    ReachableNext(s, t);
    Steps(t);
    s := Write(t, oracle);
    ReachableNext(t, s);
    Steps(s);
    t := Deliver(s, Complete(2, other), Accept);
    assert Identifier(Complete(2, other)) !! s.used;
    ReachableNext(s, t);
  }

  /** A completion marker is delivered before the evaluator has read the attempt marker. */
  lemma EarlyMarkerLoses(oracle: string)
    requires SafeOracle(oracle)
    ensures CanBeLost(oracle, 0)
  {
    var s := Initial(true);
    assert Run([s]) && Reachable(s);
    hide Next;
    hide Reachable;
    Steps(s);
    var t := Deliver(s, Complete(1, oracle), Accept);
    assert Identifier(Complete(1, oracle)) !! s.used;
    ReachableNext(s, t);
  }
}
