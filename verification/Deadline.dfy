/**
 The attempt deadline of the Grand Prix U course: the hooks around the flight loop, and what
 they keep over every run of ticks, messages, take-offs and resets. Times are in milliseconds.
 */
module Deadline {
  import opened ActivityBroker

  const LIMIT := 210000

  /** The name of the course in outcomes. */
  function OracleName(): string { "grand-prix-u-v1" }

  /** What the evaluator is told. */
  datatype Notice = Nothing | Started(attempt: nat, start: int, phase: Phase)

  datatype Phase = Admitted | Failed | Expired

  /** A raw message; a file message without a readable number has number 0. */
  datatype Raw = FileMessage(number: int) | Request(id: int, word: Word) | Unparsed

  datatype Word = RESET | OUTCOME | STOP | OtherWord

  datatype Refusal = NoReply | Busy(id: int) | TimeLimit(id: int) | LandingUnconfirmed(id: int)

  /** The variables of the hooks; begin is negative while no attempt has started. */
  datatype Hook = Hook(begin: int, attempt: nat, expired: bool, landed: bool, success: bool, fileIdle: bool)

  const FRESH := Hook(-1, 0, false, false, false, false)

  function NotAchieved(attempt: nat): Field {
    Field.Outcome(attempt, OracleName(), VerdictNotAchieved)
  }

  // ---------- what the hooks compute ----------

  predicate Startable(h: Hook, vehicle: Field, present: bool) {
    vehicle.Attempt? && vehicle.attempt >= 1 && h.begin < 0 && present
  }

  function HookAfterTakeOff(h: Hook, now: int, vehicle: Field, present: bool): Hook {
    if Startable(h, vehicle, present) then Hook(now, vehicle.attempt, false, false, false, h.fileIdle)
    else h.(expired := true)
  }

  predicate Confirmed(h: Hook, vehicle: Field) {
    h.landed && vehicle == Field.Outcome(h.attempt, OracleName(), VerdictAchieved)
  }

  /** The hook after one native observation, whether it demands a LAND, and the vehicle's field. */
  datatype Observed = Observed(hook: Hook, land: bool, vehicle: Field)

  function Ticked(h0: Hook, now: int, landed: bool, vehicle: Field): Observed {
    var h := h0.(landed := landed);
    if h.begin < 0 || h.success then Observed(h, false, vehicle)
    else if h.expired then Observed(h, false, NotAchieved(h.attempt))
    else if now - h.begin >= LIMIT then Observed(h.(expired := true), true, NotAchieved(h.attempt))
    else Observed(h.(success := Confirmed(h, vehicle)), false, vehicle)
  }

  function Stride(h: Hook, now: int, normal: int): int {
    if h.begin < 0 || h.expired || h.success then normal
    else
      var left := h.begin + LIMIT - now;
      if 0 < left < normal then left else normal
  }

  predicate FilesFenced(h: Hook) {
    !h.fileIdle || (h.begin >= 0 && !(h.success && h.landed))
  }

  /** Whether a raw message reaches the broker, and the reply when it does not. */
  function Filtered(h: Hook, m: Raw): (bool, Refusal) {
    if m.FileMessage? && FilesFenced(h) then (false, if m.number >= 1 then Busy(m.number) else NoReply)
    else if h.begin >= 0 && m.Request? && m.word == RESET && !h.landed then
      (false, if h.expired then TimeLimit(m.id) else LandingUnconfirmed(m.id))
    else if h.expired && m.Request? && m.word != OUTCOME && !(h.landed && m.word == RESET) then (false, TimeLimit(m.id))
    else (true, NoReply)
  }

  function VehicleAfterFilter(h: Hook, vehicle: Field): Field {
    if h.expired && h.begin >= 0 then NotAchieved(h.attempt) else vehicle
  }

  // ---------- the hooks ----------

  /** The field the evaluator reads; it may be missing. */
  class Board {
    var data: Notice

    constructor ()
      ensures data == Nothing
    {
      data := Nothing;
    }
  }

  class Hooks {
    const vehicle: Channel
    const evaluator: Board
    var begin: int
    var attempt: nat
    var expired: bool
    var landed: bool
    var success: bool
    var fileIdle: bool

    constructor (vehicle: Channel, evaluator: Board)
      ensures Now() == FRESH && this.vehicle == vehicle && this.evaluator == evaluator
    {
      this.vehicle, this.evaluator := vehicle, evaluator;
      begin, attempt, expired, landed, success, fileIdle := -1, 0, false, false, false, false;
    }

    function Now(): Hook
      reads this
    {
      Hook(begin, attempt, expired, landed, success, fileIdle)
    }

    method Publish(phase: Phase, present: bool)
      modifies evaluator
      ensures evaluator.data == if present then Started(attempt, begin, phase) else old(evaluator.data)
    {
      if present {
        evaluator.data := Started(attempt, begin, phase);
      }
    }

    method FailedOutcome()
      modifies vehicle
      ensures vehicle.data == NotAchieved(attempt)
    {
      vehicle.data := Field.Outcome(attempt, OracleName(), VerdictNotAchieved);
    }

    /** TAKEOFF: admit the attempt that the vehicle's field announces. */
    method Start(now: int, present: bool) returns (admitted: bool)
      modifies this, evaluator
      ensures Now() == HookAfterTakeOff(old(Now()), now, vehicle.data, present)
      ensures admitted == Startable(old(Now()), vehicle.data, present)
      ensures present ==> evaluator.data == Started(attempt, begin, if admitted then Admitted else Failed)
      ensures !present ==> evaluator.data == old(evaluator.data)
    {
      if !vehicle.data.Attempt? || vehicle.data.attempt < 1 || begin >= 0 || !present {
        expired := true;
        Publish(Failed, present);
        return false;
      }
      begin, attempt, expired, landed, success := now, vehicle.data.attempt, false, false, false;
      Publish(Admitted, present);
      return true;
    }

    /** One native observation; a result of true takes control for a LAND. */
    method Tick(now: int, nativeLanded: bool, present: bool) returns (land: bool)
      modifies this, vehicle, evaluator
      ensures Observed(Now(), land, vehicle.data) == Ticked(old(Now()), now, nativeLanded, old(vehicle.data))
      ensures evaluator.data == if land && present then Started(attempt, begin, Expired) else old(evaluator.data)
    {
      landed := nativeLanded;
      if begin < 0 || success {
        return false;
      }
      if expired {
        FailedOutcome();
        return false;
      }
      if now - begin >= LIMIT {
        expired := true;
        Publish(Expired, present);
        FailedOutcome();
        return true;
      }
      success := landed && vehicle.data.Outcome? && vehicle.data.attempt == attempt
          && vehicle.data.oracle == OracleName()
                 && vehicle.data.status == VerdictAchieved;
      return false;
    }

    method NextStep(now: int, normal: int) returns (step: int)
      ensures step == Stride(Now(), now, normal)
    {
      if begin < 0 || expired || success {
        return normal;
      }
      var left := begin + LIMIT - now;
      return if left > 0 && left < normal then left else normal;
    }

    method ResetComplete(present: bool)
      modifies this, evaluator
      ensures Now() == FRESH
      ensures evaluator.data == if present then Nothing else old(evaluator.data)
    {
      begin, attempt, expired, landed, success, fileIdle := -1, 0, false, false, false, false;
      if present {
        evaluator.data := Nothing;
      }
    }

    method FileIdle(idle: bool)
      modifies this`fileIdle
      ensures Now() == old(Now()).(fileIdle := idle)
    {
      fileIdle := idle;
    }

    /** Stands before the broker: a message either passes or is answered here. */
    method FilterRaw(m: Raw, present: bool) returns (pass: bool, reply: Refusal)
      modifies vehicle, evaluator
      ensures (pass, reply) == Filtered(Now(), m)
      ensures vehicle.data == VehicleAfterFilter(Now(), old(vehicle.data))
      ensures evaluator.data == if present && pass && begin >= 0 && !expired && m.Request? && m.word == STOP
                                then Started(attempt, begin, Failed) else old(evaluator.data)
    {
      if expired && begin >= 0 {
        FailedOutcome();
      }
      if m.FileMessage? && (!fileIdle || (begin >= 0 && !(success && landed))) {
        return false, if m.number >= 1 then Busy(m.number) else NoReply;
      }
      if begin >= 0 && m.Request? && m.word == RESET && !landed {
        return false, if expired then TimeLimit(m.id) else LandingUnconfirmed(m.id);
      }
      if expired && m.Request? && m.word != OUTCOME && !(landed && m.word == RESET) {
        return false, TimeLimit(m.id);
      }
      if begin >= 0 && !expired && m.Request? && m.word == STOP {
        Publish(Failed, present);
      }
      return true, NoReply;
    }
  }

  // ---------- every run ----------

  /**
   The hooks with the clock, and what happened since the last completed RESET: the LAND demands,
   whether TAKEOFF came again during an attempt, and the times of expiry and of the latched success.
   */
  datatype Machine = Machine(hook: Hook, now: int, vehicle: Field, lands: nat, restarted: bool, expiredAt: int,
      succeededAt: int)

  datatype Event =
    | Turn(normal: int, landed: bool, vehicle: Field)
    | TakeOff(present: bool)
    | Arrive(message: Raw)
    | ResetDone
    | Idleness(idle: bool)
    | Written(vehicle: Field)

  function Initial(now: int, vehicle: Field): Machine {
    Machine(FRESH, now, vehicle, 0, false, -1, -1)
  }

  /** One turn of the loop: step the clock as far as asked, then observe. Others may have written the field. */
  function AfterTurn(m: Machine, normal: int, landed: bool, vehicle: Field): Machine {
    var now := m.now + Stride(m.hook, m.now, normal);
    var o := Ticked(m.hook, now, landed, vehicle);
    Machine(o.hook, now, o.vehicle, if o.land then m.lands + 1 else m.lands, m.restarted,
            if o.land then now else m.expiredAt, if o.hook.success && !m.hook.success then now else m.succeededAt)
  }

  function After(m: Machine, e: Event): Machine {
    match e
    case Turn(normal, landed, vehicle) => AfterTurn(m, normal, landed, vehicle)
    case TakeOff(present) =>
      m.(hook := HookAfterTakeOff(m.hook, m.now, m.vehicle, present), restarted := m.restarted || m.hook.begin >= 0)
    case Arrive(_) => m.(vehicle := VehicleAfterFilter(m.hook, m.vehicle))
    case ResetDone => Initial(m.now, m.vehicle)
    case Idleness(idle) => m.(hook := m.hook.(fileIdle := idle))
    case Written(vehicle) => m.(vehicle := vehicle)
  }

  function Run(m: Machine, es: seq<Event>): Machine {
    if es == [] then m else After(Run(m, es[..|es| - 1]), es[|es| - 1])
  }

  /** Normal steps are positive. */
  predicate Forward(es: seq<Event>) {
    forall i :: 0 <= i < |es| && es[i].Turn? ==> es[i].normal > 0
  }

  predicate Invariant(m: Machine) {
    var h := m.hook;
    && m.now >= 0
    && (h.begin < 0 ==> !h.success && !m.restarted && m.lands == 0)
    && (h.begin >= 0 ==>
          && h.begin <= m.now
          && (!h.expired && !h.success ==> m.now < h.begin + LIMIT)
          && (h.expired <==> m.lands == 1 || m.restarted)
          && m.lands <= 1
          && (m.lands == 1 ==> !h.success && m.expiredAt == h.begin + LIMIT <= m.now)
          && (h.success ==> h.begin <= m.succeededAt < h.begin + LIMIT))
  }

  lemma AfterKeepsInvariant(m: Machine, e: Event)
    requires Invariant(m) && (e.Turn? ==> e.normal > 0)
    ensures Invariant(After(m, e))
  {
  }

  lemma {:induction false} RunKeepsInvariant(m: Machine, es: seq<Event>)
    requires Invariant(m) && Forward(es)
    ensures Invariant(Run(m, es))
  {
    if es != [] {
      RunKeepsInvariant(m, es[..|es| - 1]);
      AfterKeepsInvariant(Run(m, es[..|es| - 1]), es[|es| - 1]);
    }
  }

  /**
   In every run: at most one LAND per attempt, exactly at the limit and never after a success; an attempt that ran
   past its limit without success has expired there; a success was latched strictly before the limit; with one
   take-off per attempt, an attempt has expired exactly when its LAND was demanded.
   */
  lemma DeadlineIsExact(now: int, vehicle: Field, es: seq<Event>)
    requires now >= 0 && Forward(es)
    ensures var m := Run(Initial(now, vehicle), es);
            m.hook.begin >= 0 ==>
              && m.lands <= 1
              && (m.lands == 1 ==> m.expiredAt == m.hook.begin + LIMIT && !m.hook.success)
              && (m.hook.success ==> m.succeededAt < m.hook.begin + LIMIT)
              && (!m.restarted && !m.hook.success ==> (m.lands == 1 <==> m.now >= m.hook.begin + LIMIT))
              && (m.hook.expired && m.hook.success <==> m.restarted && m.hook.success)
  {
    RunKeepsInvariant(Initial(now, vehicle), es);
  }

  /** A success is latched by a landed observation of the achieved outcome of the same attempt, inside the time. */
  lemma SuccessNeedsLanding(m: Machine, e: Event)
    requires Invariant(m) && !m.hook.success && After(m, e).hook.success
    requires e.Turn? ==> e.normal > 0
    ensures e.Turn? && e.landed && e.vehicle == Field.Outcome(m.hook.attempt, OracleName(), VerdictAchieved)
    ensures After(m, e).now < m.hook.begin + LIMIT && After(m, e).hook.begin == m.hook.begin >= 0
  {
  }

  /** A latched success lasts until RESET is confirmed. */
  lemma SuccessLasts(m: Machine, e: Event)
    requires Invariant(m) && m.hook.success && e != ResetDone
    ensures After(m, e).hook.success && After(m, e).succeededAt == m.succeededAt && After(m, e).lands == m.lands
  {
  }

  // ---------- ticking towards the limit ----------

  predicate OnlyTurns(es: seq<Event>, normal: int) {
    forall i :: 0 <= i < |es| ==> es[i].Turn? && es[i].normal == normal
  }

  /** From admission on, n turns without a success take the clock to n periods, or to the limit and no further. */
  lemma {:induction false} TurnsReachLimit(m: Machine, es: seq<Event>, normal: int)
    requires Invariant(m) && m.hook.begin == m.now && !m.hook.expired && !m.hook.success && normal > 0
    requires OnlyTurns(es, normal) && !Run(m, es).hook.success
    ensures Underway(Run(m, es), m.now, |es| * normal)
  {
    if es == [] {
    } else {
      var front, last := es[..|es| - 1], es[|es| - 1];
      var before := Run(m, front);
      assert last.Turn? && last.normal == normal && Run(m, es) == After(before, last);
      NoLandBefore(m, front);
      RunKeepsInvariant(m, front);
      assert m.now >= 0 && (!before.hook.expired ==> before.lands == 0);
      hide Underway;
      hide Invariant;
      hide After;
      TurnsReachLimit(m, front, normal);
      OneMore(|front|, normal);
    }
  }

  lemma OneMore(n: nat, normal: int)
    ensures (n + 1) * normal == n * normal + normal
  {
  }

  /**
   The attempt that began at `begin` has ticked for a while: expired at the limit exactly, or that far from its
   begin.
   */
  predicate Underway(m: Machine, begin: int, elapsed: int) {
    && m.hook.begin == begin
    && (m.hook.expired <==> elapsed >= LIMIT)
    && (m.hook.expired ==> m.lands == 1 && m.expiredAt == begin + LIMIT)
    && (!m.hook.expired ==> m.now == begin + elapsed)
  }

  lemma {:induction false} NoLandBefore(m: Machine, es: seq<Event>)
    requires Invariant(m) && !m.hook.expired && m.hook.begin >= 0 && Forward(es)
    requires forall i :: 0 <= i < |es| ==> es[i].Turn?
    ensures Run(m, es).hook.begin == m.hook.begin && !Run(m, es).restarted
  {
    if es != [] {
      NoLandBefore(m, es[..|es| - 1]);
      RunKeepsInvariant(m, es[..|es| - 1]);
      assert es[|es| - 1].Turn?;
    }
  }

  // ---------- what passes the filter ----------

  /** After expiry only OUTCOME, a landed RESET and messages that are no requests reach the broker. */
  lemma ExpiryFences(m: Machine, message: Raw)
    requires Invariant(m) && m.hook.begin >= 0 && m.hook.expired && !m.restarted
    ensures Filtered(m.hook, message).0 <==>
              message == Unparsed || (message.Request?
                  && (message.word == OUTCOME || (message.word == RESET && m.hook.landed)))
  {
  }

  /** The same exactly, for any state: files need an idle vehicle and no unfinished attempt; RESET needs a landing. */
  lemma FilterPasses(h: Hook, message: Raw)
    ensures Filtered(h, message).0 <==>
              match message
              case FileMessage(_) => h.fileIdle && (h.begin < 0 || (h.success && h.landed))
              case Request(_, word) =>
                    word == OUTCOME || (word == RESET && h.landed) || (!h.expired && (word != RESET || h.begin < 0))
              case Unparsed => true
  {
  }

  /** Whatever was written late, the broker finds no achieved outcome in an expired attempt. */
  lemma ExpiredNeverReportsAchieved(m: Machine, message: Raw, c: Counter, id: int, oracle: string)
    requires m.hook.begin >= 0 && m.hook.expired
    ensures var r := Receive(c, After(m, Arrive(message)).vehicle, Query(id, oracle));
            forall k :: 0 <= k < |r.replies| ==> r.replies[k] != State(id, VerdictAchieved)
  {
  }

  // ---------- a second take-off in one attempt ----------

  /** A take-off during an attempt is refused and marks it expired, success or not. */
  lemma SecondTakeOffExpires(m: Machine, present: bool)
    requires m.hook.begin >= 0
    ensures After(m, TakeOff(present)).hook == m.hook.(expired := true)
  {
  }

  /** A concrete run that ends both successful and expired. */
  lemma SuccessCanExpire() returns (es: seq<Event>)
    ensures Forward(es)
    ensures var m := Run(Initial(0, Field.Attempt(1)), es); m.hook.success && m.hook.expired
  {
    var achieved := Field.Outcome(1, OracleName(), VerdictAchieved);
    es := [TakeOff(true), Turn(32, true, achieved), TakeOff(true)];
    assert es[..2] == [TakeOff(true), Turn(32, true, achieved)];
    assert es[..2][..1] == [TakeOff(true)];
    assert es[..1] == [TakeOff(true)] && es[..1][..0] == [];
    var m0 := Initial(0, Field.Attempt(1));
    var m1 := After(m0, TakeOff(true));
    assert Run(m0, es[..2][..1]) == m1;
    assert Run(m0, es[..2]) == After(m1, Turn(32, true, achieved));
  }

  /** Before expiry, a second take-off also disarms the LAND demand for the rest of the attempt. */
  lemma {:induction false} RestartDisarms(m: Machine, es: seq<Event>)
    requires Invariant(m) && m.hook.begin >= 0 && m.restarted && m.lands == 0
    requires Forward(es) && forall i :: 0 <= i < |es| ==> es[i] != ResetDone
    ensures Run(m, es).lands == 0 && Run(m, es).hook.expired && Run(m, es).hook.begin == m.hook.begin
  {
    if es != [] {
      RestartDisarms(m, es[..|es| - 1]);
      assert es[|es| - 1] != ResetDone;
    }
  }
}
