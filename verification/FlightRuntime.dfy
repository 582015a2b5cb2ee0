/**
 The flight loop of the runtime: request admission, fail-safe latch, settle windows and
 timeouts, driven by arbitrary sensor samples and messages.
 */
module FlightRuntime {
  import opened Options
  import opened Reals
  import opened FlightProfile

  const VX_MAX := 0.35
  const POSITION_TOL := 0.03
  const YAW_TOL := 2.0 * PI / 180.0
  const SPEED_TOL := 0.12
  const YAW_RATE_TOL := 0.10
  const VZ_TOL := 0.15
  const ALT_TOL := 0.05
  const STOP_WINDOW := 0.5
  const RESET_WINDOW := 0.25
  const RESET_TIMEOUT := 5.0
  const ACTION_TIMEOUT := 25.0
  const UNSAFE_ANGLE := 1.2

  datatype Command = Idle | TakingOff | Moving | Climbing | Turning | Waiting | Landing | Resetting

  datatype Heading = Ahead | Behind | ToLeft | ToRight | UnknownHeading
  datatype Climb = Up | Down | UnknownClimb

  /** Requests as parsed; world services needed by a request answer along with it. */
  datatype Request =
    | Invalid(id: int)
    | Stop(id: int)
    | Reset(id: int)
    | Scene(id: int, selected: bool)
    | Elapsed(id: int)
    | Range(id: int, known: bool, reading: Number)
    | Speed(id: int, value: Number)
    | Light(id: int, known: bool)
    | TakeOff(id: int, value: Number, sceneReady: bool)
    | Move(id: int, heading: Heading, value: Number)
    | Vertical(id: int, climb: Climb, value: Number)
    | Turn(id: int, value: Number)
    | Wait(id: int, value: Number)
    | Land(id: int)
  {
    /** Requests that are executed over several steps. */
    predicate Action() {
      Reset? || TakeOff? || Move? || Vertical? || Turn? || Wait? || Land?
    }
  }

  datatype Response = Ok(id: int) | Err(id: int, code: string) | Value(id: int, value: real)

  datatype Pose = Pose(x: real, y: real, z: real, roll: real, pitch: real, yaw: real)

  /** One sensor reading; c and s stand for the cosine and sine of the yaw. */
  datatype Sample = Sample(now: real, pose: Pose, yawRate: real, c: real, s: real, groundContact: bool)

  datatype Motion = Motion(dt: real, vx: real, vy: real, vz: real)

  datatype Target = Target(x: real, y: real, z: real, yaw: real)

  datatype Motors = Stopped | Controlled | Unchanged

  // ---------- tolerances ----------

  /** hypot(a, b) < limit, without the square root. */
  predicate Slower(a: real, b: real, limit: real) {
    a * a + b * b < limit * limit
  }

  predicate Closer(a: real, b: real, limit: real) {
    a * a + b * b <= limit * limit
  }

  predicate Steady(v: Motion, s: Sample) {
    Slower(v.vx * s.c + v.vy * s.s, -v.vx * s.s + v.vy * s.c, SPEED_TOL) && Abs(s.yawRate) < YAW_RATE_TOL
        && Abs(v.vz) < VZ_TOL
  }

  predicate Holding(v: Motion, s: Sample, t: Target) {
    && Closer(t.x - s.pose.x, t.y - s.pose.y, POSITION_TOL)
    && Abs(Wrapped(t.yaw - s.pose.yaw)) <= YAW_TOL
    && Steady(v, s)
    && Abs(s.pose.z - t.z) < ALT_TOL
  }

  predicate Level(v: Motion, s: Sample, t: Target) {
    Abs(s.pose.z - t.z) < ALT_TOL && Steady(v, s)
  }

  predicate Grounded(v: Motion, s: Sample, origin: Pose) {
    s.pose.z <= origin.z + ALT_TOL && Abs(v.vz) < VZ_TOL
  }

  predicate Home(v: Motion, s: Sample, origin: Pose) {
    && Abs(s.pose.x - origin.x) < POSITION_TOL && Abs(s.pose.y - origin.y) < POSITION_TOL
       && Abs(s.pose.z - origin.z) < ALT_TOL
    && Abs(s.pose.roll - origin.roll) < YAW_TOL && Abs(s.pose.pitch - origin.pitch) < YAW_TOL
    && Abs(Wrapped(s.pose.yaw - origin.yaw)) < YAW_TOL
    && Steady(v, s)
  }

  /** The tolerance a command must meet while it settles. */
  predicate Ready(command: Command, v: Motion, s: Sample, t: Target, origin: Pose) {
    match command
    case Idle => false
    case TakingOff => Level(v, s, t)
    case Landing => Grounded(v, s, origin)
    case Resetting => Home(v, s, origin)
    case _ => Holding(v, s, t)
  }

  function Window(command: Command): real {
    if command == Resetting then RESET_WINDOW else if command == Waiting then 0.0 else STOP_WINDOW
  }

  function Limit(command: Command): real {
    if command == Resetting then RESET_TIMEOUT else ACTION_TIMEOUT
  }

  predicate NeedsFlight(command: Command) {
    command.Moving? || command.Climbing? || command.Turning? || command.Waiting? || command.Landing?
  }

  // ---------- history ----------

  /** A request that was admitted, with the sample and the flight state it was judged on. */
  datatype Order = Order(request: Request, sample: Sample, airborne: bool, height: real)

  /** A processed sample, with the order that was being executed when it was evaluated. */
  datatype Processed = Processed(sample: Sample, motion: Motion, executing: Option<Order>)

  ghost predicate Met(e: Processed, o: Order, origin: Pose) {
    e.executing == Some(o) && Ready(CommandOf(o.request), e.motion, e.sample, TargetOf(o, origin), origin)
  }

  /** From `first` through `last`, every processed sample met the tolerance of one order. */
  ghost predicate Span(h: seq<Processed>, first: nat, last: int, o: Order, origin: Pose) {
    first <= last < |h| && forall k :: first <= k <= last ==> Met(h[k], o, origin)
  }

  /** An order answered OK, and the stretch of samples that settled it. */
  datatype Settled = Settled(order: Order, first: nat, last: nat)

  /** The stretch fills the window of the order, and a WAIT has lasted the time it asked for. */
  ghost predicate SettledBy(h: seq<Processed>, e: Settled, origin: Pose) {
    && Span(h, e.first, e.last, e.order, origin)
    && h[e.last].sample.now - h[e.first].sample.now >= Window(CommandOf(e.order.request))
    && (e.order.request.Wait? ==> h[e.last].sample.now - e.order.sample.now >= e.order.request.value.Or0())
  }

  lemma SpanExtends(h: seq<Processed>, p: Processed, first: nat, last: int, o: Order, origin: Pose)
    requires Span(h, first, last, o, origin)
    ensures Span(h + [p], first, last, o, origin)
    ensures last == |h| - 1 && Met(p, o, origin) ==> Span(h + [p], first, |h|, o, origin)
  {
    hide Met;
  }

  ghost predicate AllSettled(h: seq<Processed>, done: seq<Settled>, origin: Pose) {
    forall i :: 0 <= i < |done| ==> SettledBy(h, done[i], origin)
  }

  lemma AllSettledAfter(h: seq<Processed>, p: Processed, done: seq<Settled>, origin: Pose)
    requires AllSettled(h, done, origin)
    ensures AllSettled(h + [p], done, origin)
  {
  }

  lemma AllSettledWith(h: seq<Processed>, done: seq<Settled>, e: Settled, origin: Pose)
    requires AllSettled(h, done, origin) && SettledBy(h, e, origin)
    ensures AllSettled(h, done + [e], origin)
  {
    hide SettledBy;
  }

  // ---------- accounting ----------

  ghost predicate Balanced(received: multiset<int>, answered: multiset<int>, active: int, owed: multiset<int>) {
    received == answered + (if active >= 1 then multiset{active} else multiset{}) + owed
  }

  lemma BalanceStart(received: multiset<int>, answered: multiset<int>, active: int, id: int)
    requires active < 1 && id >= 1 && Balanced(received, answered, active, multiset{id})
    ensures Balanced(received, answered, id, multiset{})
  {
  }

  lemma BalanceAnswer(received: multiset<int>, answered: multiset<int>, active: int, id: int)
    requires Balanced(received, answered, active, multiset{id})
    ensures Balanced(received, answered + multiset{id}, active, multiset{})
  {
  }

  lemma BalanceFinish(received: multiset<int>, answered: multiset<int>, active: int, owed: multiset<int>)
    requires active >= 1 && Balanced(received, answered, active, owed)
    ensures Balanced(received, answered + multiset{active}, -1, owed)
  {
  }

  lemma BalanceNone(received: multiset<int>, answered: multiset<int>, active: int, owed: multiset<int>)
    requires active < 1 && Balanced(received, answered, active, owed)
    ensures Balanced(received, answered, -1, owed)
  {
  }

  lemma BalanceReceive(received: multiset<int>, answered: multiset<int>, active: int, id: int)
    requires Balanced(received, answered, active, multiset{})
    ensures Balanced(received + multiset{id}, answered, active, multiset{id})
  {
  }

  // ---------- the controller ----------

  /** The identifiers a list of responses answers. */
  function Identities(responses: seq<Response>): multiset<int> {
    if responses == [] then multiset{}
    else Identities(responses[..|responses| - 1]) + multiset{responses[|responses| - 1].id}
  }

  lemma {:induction false} IdentitiesOfBoth(a: seq<Response>, b: seq<Response>)
    ensures Identities(a + b) == Identities(a) + Identities(b)
    decreases |b|
  {
    if b == [] {
      assert a + b == a;
    } else {
      var front := b[..|b| - 1];
      assert (a + b)[..|a + b| - 1] == a + front;
      IdentitiesOfBoth(a, front);
    }
  }

  lemma IdentitiesOfNone()
    ensures Identities([]) == multiset{}
  {
  }

  lemma IdentitiesOfOne(r: Response)
    ensures Identities([r]) == multiset{r.id}
  {
  }

  /** A request that the loop answers without executing anything asked for this identifier. */
  ghost predicate AskedAtOnce(inbox: seq<Request>, id: int) {
    exists i :: 0 <= i < |inbox| && inbox[i].id == id && !inbox[i].Action()
  }

  /** What the loop is executing, as far as its answers depend on it. */
  datatype Doing = Rest | Busy(id: int, reset: bool)

  /** What one request does: which responses it gets, and what is executed afterwards. */
  ghost predicate Reacts(r: Request, before: Doing, after: Doing, responses: seq<Response>) {
    if r.id < 1 then after == before && responses == []
    else if r.Stop? then
      if before.Busy? && before.reset then after == before && responses == [Err(r.id, "NOT_RUNNING")]
      else after == Rest && responses == (if before.Busy? then [Err(before.id, "USER_STOPPED")] else []) + [Ok(r.id)]
    else if before.Busy? || r.Invalid? then
      after == before && |responses| == 1 && responses[0] == Err(r.id, if r.Invalid? then "INVALID_REQUEST" else "BUSY")
    else if r.Reset? then after == Busy(r.id, true) && responses == []
    else
      (after == Rest && |responses| == 1 && responses[0].id == r.id) || (after == Busy(r.id, false) && responses == [])
  }

  /** What a step does after its messages: nothing, or it ends the active command with one answer. */
  ghost predicate Closes(before: Doing, after: Doing, responses: seq<Response>) {
    || (after == before && responses == [])
    || (after == Rest && before.Busy? && |responses| == 1 && responses[0].id == before.id && !responses[0].Value?)
  }

  /** The state at the start of a step that its messages are judged against. */
  datatype Entry = Entry(
    received: multiset<int>, answered: multiset<int>, accepted: seq<Order>, latched: bool, landing: bool,
        touchdown: bool)

  /** The target of a move along the current heading. */
  function MoveTarget(s: Sample, heading: Heading, d: real, z: real): Target {
    match heading
    case Ahead => Target(s.pose.x + s.c * d, s.pose.y + s.s * d, z, s.pose.yaw)
    case Behind => Target(s.pose.x - s.c * d, s.pose.y - s.s * d, z, s.pose.yaw)
    case ToLeft => Target(s.pose.x - s.s * d, s.pose.y + s.c * d, z, s.pose.yaw)
    case _ => Target(s.pose.x + s.s * d, s.pose.y - s.c * d, z, s.pose.yaw)
  }

  /** In body axes a move is the requested distance straight ahead, behind, to the left or to the right. */
  lemma MoveIsStraight(s: Sample, heading: Heading, d: real, z: real)
    requires s.c * s.c + s.s * s.s == 1.0
    ensures var t := MoveTarget(s, heading, d, z);
            var dx, dy := t.x - s.pose.x, t.y - s.pose.y;
            && dx * s.c + dy * s.s == (match heading case Ahead => d case Behind => -d case _ => 0.0)
            && -dx * s.s + dy * s.c ==
               (match heading case Ahead => 0.0 case Behind => 0.0 case ToLeft => d case _ => -d)
            && t.z == z && t.yaw == s.pose.yaw
  {
  }

  predicate Within(value: Number, lo: real, hi: real) {
    value.Finite? && lo <= value.value <= hi
  }

  predicate FlightRequest(r: Request) {
    r.TakeOff? || r.Move? || r.Vertical? || r.Turn? || r.Wait? || r.Land?
  }

  function Radians(degrees: real): real {
    degrees * PI / 180.0
  }

  function NextHeight(s: Sample, climb: Climb, value: real): real {
    s.pose.z + (if climb == Up then value else -value)
  }

  /** Why a flight request is refused, if it is. */
  function RefusalOf(r: Request, s: Sample, airborne: bool, ground: real): Option<string>
    requires FlightRequest(r)
  {
    match r
    case TakeOff(_, value, sceneReady) =>
      if !sceneReady then Some("SCENE_UNAVAILABLE")
      else if airborne || !Within(value, 0.2, 1.5) then Some("INVALID_TAKEOFF") else None
    case Move(_, heading, value) =>
      if !airborne || !Within(value, 0.01, 2.0) || heading == UnknownHeading then Some("INVALID_MOVE") else None
    case Vertical(_, climb, value) =>
      if !airborne || !Within(value, 0.1, 0.8) || climb == UnknownClimb then Some("INVALID_VERTICAL")
      else if !(ground + 0.2 <= NextHeight(s, climb, value.value) <= ground + 1.5) then Some("VERTICAL_LIMIT") else None
    case Turn(_, value) =>
      if !airborne || value.NotFinite? || !(1.0 <= Abs(value.value) <= 179.0) then Some("INVALID_TURN") else None
    case Wait(_, value) => if !airborne || !Within(value, 0.1, 5.0) then Some("INVALID_WAIT") else None
    case _ => if !airborne then Some("INVALID_LAND") else None
  }

  function CommandFor(r: Request): Command
    requires FlightRequest(r)
  {
    match r
    case TakeOff(_, _, _) => TakingOff
    case Move(_, _, _) => Moving
    case Vertical(_, _, _) => Climbing
    case Turn(_, _) => Turning
    case Wait(_, _) => Waiting
    case _ => Landing
  }

  /** The command that executes a request. */
  function CommandOf(r: Request): Command {
    if r.Reset? then Resetting else if FlightRequest(r) then CommandFor(r) else Idle
  }

  function HomeTarget(origin: Pose): Target {
    Target(origin.x, origin.y, origin.z, origin.yaw)
  }

  function TargetOf(o: Order, origin: Pose): Target {
    if FlightRequest(o.request) then Aim(o.request, o.sample, origin.z, o.height) else HomeTarget(origin)
  }

  predicate Admitted(o: Order, origin: Pose) {
    && o.request.id >= 1
    && (o.request.Reset? || (FlightRequest(o.request) && RefusalOf(o.request, o.sample, o.airborne, origin.z).None?))
  }

  ghost predicate AllAdmitted(orders: seq<Order>, origin: Pose) {
    forall i :: 0 <= i < |orders| ==> Admitted(orders[i], origin)
  }

  /** The command in progress is what the order asked for. */
  predicate Executes(o: Order, origin: Pose, command: Command, id: int, value: real, target: Target, start: real) {
    && command == CommandOf(o.request) && id == o.request.id && target == TargetOf(o, origin) && start == o.sample.now
    && (o.request.Wait? ==> value == o.request.value.Or0())
  }

  /** Every settled order had been admitted. */
  ghost predicate Known(done: seq<Settled>, orders: seq<Order>) {
    forall i :: 0 <= i < |done| ==> done[i].order in orders
  }

  lemma OrdersGrow(orders: seq<Order>, o: Order, done: seq<Settled>, origin: Pose)
    requires AllAdmitted(orders, origin) && Admitted(o, origin) && Known(done, orders)
    ensures AllAdmitted(orders + [o], origin) && Known(done, orders + [o])
  {
    hide Admitted;
    forall i | 0 <= i < |done|
      ensures done[i].order in orders + [o]
    {
      assert done[i].order in orders;
    }
  }

  lemma CommandIsFlight(r: Request)
    requires FlightRequest(r)
    ensures CommandFor(r) != Idle && CommandFor(r) != Resetting
  {
  }

  /** Where an admitted flight request aims; a move keeps the height it already aimed at. */
  function Aim(r: Request, s: Sample, ground: real, z: real): Target
    requires FlightRequest(r)
  {
    var here := Target(s.pose.x, s.pose.y, s.pose.z, s.pose.yaw);
    match r
    case TakeOff(_, value, _) => here.(z := ground + value.Or0())
    case Move(_, heading, value) => MoveTarget(s, heading, value.Or0(), z)
    case Vertical(_, climb, value) => here.(z := NextHeight(s, climb, value.Or0()))
    case Turn(_, value) => here.(yaw := Wrapped(s.pose.yaw + Radians(value.Or0())))
    case Wait(_, _) => here
    case _ => here.(z := ground)
  }

  /** A take-off or a climb aims between 0.2 m and 1.5 m above the ground, a turn at a wrapped yaw. */
  lemma AimIsSafe(r: Request, s: Sample, airborne: bool, ground: real, z: real)
    requires FlightRequest(r) && RefusalOf(r, s, airborne, ground).None?
    ensures r.TakeOff? || r.Vertical? ==> ground + 0.2 <= Aim(r, s, ground, z).z <= ground + 1.5
    ensures r.Turn? ==> -PI < Aim(r, s, ground, z).yaw <= PI
    ensures NeedsFlight(CommandFor(r)) <==> !r.TakeOff?
    ensures NeedsFlight(CommandFor(r)) ==> airborne
    ensures r.TakeOff? ==> !airborne
  {
  }

  /** The answer to a request that needs no execution; reading the clock is apart. */
  function AnswerAtOnce(r: Request, s: Sample, v: Motion, airborne: bool, origin: Pose): Response
    requires r.Scene? || r.Range? || r.Speed? || r.Light?
  {
    match r
    case Scene(id, selected) =>
      if airborne || !Closer(s.pose.x - origin.x, s.pose.y - origin.y, POSITION_TOL)
          || Abs(s.pose.z - origin.z) > ALT_TOL
         || !Closer(v.vx, v.vy, SPEED_TOL) || Abs(v.vz) > VZ_TOL then Err(id, "RESET_REQUIRED")
      else if selected then Ok(id) else Err(id, "SCENE_UNAVAILABLE")
    case Range(id, known, reading) =>
      if !known then Err(id, "CAPABILITY_UNAVAILABLE")
      else if !Within(reading, 0.0, 2.001) then Err(id, "INVALID_RANGE_SAMPLE") else Value(id, reading.value)
    case Speed(id, value) => if Within(value, 0.1, VX_MAX) then Ok(id) else Err(id, "INVALID_SPEED")
    case Light(id, known) => if known then Ok(id) else Err(id, "INVALID_LIGHT")
    case _ => Err(r.id, "")
  }

  class Flight {
    const origin: Pose
    const clock: SimulationClock
    var target: Target
    var previous: Pose
    var previousTime: real
    var airborne: bool
    var failsafeLatched: bool
    var command: Command
    var activeId: int
    var activeValue: real
    var moveSpeedLimit: real
    var stableSince: real
    var actionStart: real
    var landStartZ: real
    var landTouchdown: bool

    ghost var received: multiset<int>
    ghost var answered: multiset<int>
    ghost var history: seq<Processed>
    ghost var accepted: seq<Order>
    ghost var settled: seq<Settled>
    ghost var settling: nat

    /** Every request received is answered, in progress, or one of those still owed. */
    ghost predicate Accounted(owed: multiset<int>)
      reads this`command, this`activeId, this`received, this`answered
    {
      (command == Idle <==> activeId < 1) && Balanced(received, answered, activeId, owed)
    }

    /** Which states go together. */
    ghost predicate Consistent()
      reads this`command, this`airborne, this`failsafeLatched, this`moveSpeedLimit, clock
    {
      && (NeedsFlight(command) ==> airborne)
      && (command == TakingOff || command == Resetting ==> !airborne)
      && (failsafeLatched ==> command == Idle)
      && (clock.active ==> (command == TakingOff || airborne) && !failsafeLatched)
      && 0.1 <= moveSpeedLimit <= VX_MAX
    }

    ghost predicate Stable()
      reads this`command, this`accepted, this`history, this`settling, this`stableSince
    {
      && command != Idle && command != Waiting && accepted != []
      && Span(history, settling, |history| - 1, accepted[|accepted| - 1], origin)
      && history[settling].sample.now == stableSince
    }

    /** The stable stretch in progress starts at `settling` and reaches the latest processed sample. */
    ghost predicate Settling()
      reads this`command, this`accepted, this`history, this`settling, this`stableSince, this`settled
    {
      && (stableSince >= 0.0 ==> Stable())
      && AllSettled(history, settled, origin)
    }

    /** The active command executes the latest admitted order; settled orders had been admitted. */
    ghost predicate Obeying()
      reads this`accepted, this`settled, this`command, this`activeId, this`activeValue, this`target, this`actionStart
    {
      && AllAdmitted(accepted, origin) && Known(settled, accepted)
      && (command != Idle ==>
            accepted != [] && Executes(accepted[|accepted| - 1], origin, command, activeId, activeValue, target,
                actionStart))
    }

    ghost predicate Owing(owed: multiset<int>)
      reads this, clock
    {
      && Accounted(owed) && Consistent() && Settling() && Obeying()
      && previousTime >= 0.0 && (command != Idle ==> actionStart >= 0.0)
    }

    ghost predicate Valid()
      reads this, clock
    {
      Owing(multiset{})
    }

    constructor (origin: Pose, now: real)
      requires now >= 0.0
      ensures Valid() && this.origin == origin && fresh(clock) && command == Idle && !airborne && !failsafeLatched
      ensures received == multiset{} && answered == multiset{} && history == [] && settled == [] && accepted == []
    {
      this.origin := origin;
      clock := new SimulationClock();
      target := Target(origin.x, origin.y, origin.z, origin.yaw);
      previous, previousTime := origin, now;
      airborne, failsafeLatched, command, activeId, activeValue := false, false, Idle, -1, 0.0;
      moveSpeedLimit, stableSince, actionStart, landStartZ, landTouchdown := VX_MAX, -1.0, 0.0, origin.z, false;
      received, answered, history, settled, settling := multiset{}, multiset{}, [], [], 0;
      accepted := [];
    }

    // ---------- request admission ----------

    /** A new command takes over with a fresh settle window. */
    method Begin(command: Command, id: int, value: real, target: Target, now: real, ghost o: Order)
      requires Owing(multiset{id}) && this.command == Idle && id >= 1 && command != Idle && now >= 0.0
               && !failsafeLatched
      requires NeedsFlight(command) ==> airborne
      requires command == TakingOff || command == Resetting ==> !airborne
      requires Admitted(o, origin) && Executes(o, origin, command, id, value, target, now)
      modifies this`command, this`activeId, this`activeValue, this`target, this`stableSince, this`actionStart,
               this`accepted
      ensures Valid() && this.command == command && activeId == id && activeValue == value && actionStart == now
      ensures this.target == target && stableSince < 0.0 && accepted == old(accepted) + [o]
    {
      hide Span;
      hide AllSettled;
      hide Balanced;
      hide Executes;
      OrdersGrow(accepted, o, settled, origin);
      hide AllAdmitted;
      hide Known;
      BalanceStart(received, answered, activeId, id);
      this.command, activeId, activeValue, this.target := command, id, value, target;
      stableSince, actionStart, accepted := -1.0, now, accepted + [o];
    }

    /** STOP: hold the current pose, latch the fail-safe, answer the interrupted command and the request. */
    method HandleStop(r: Request, s: Sample) returns (responses: seq<Response>)
      requires r.Stop? && r.id >= 1 && Owing(multiset{r.id})
      modifies this`target, this`airborne, this`failsafeLatched, this`command, this`activeId, this`activeValue,
               this`stableSince, this`answered, clock
      ensures Valid() && !clock.active
      ensures command == old(command) || command == Idle
      ensures old(command) == Resetting ==> responses == [Err(r.id, "NOT_RUNNING")] && command == Resetting
      ensures old(command) == Resetting ==> activeId == old(activeId) && airborne == old(airborne)
      ensures old(command) != Resetting ==>
                command == Idle && failsafeLatched && airborne == (s.pose.z > origin.z + ALT_TOL)
                                            && target == Target(s.pose.x, s.pose.y, s.pose.z, s.pose.yaw)
      ensures old(command) != Resetting ==>
        responses == (if old(activeId) >= 1 then [Err(old(activeId), "USER_STOPPED")] else []) + [Ok(r.id)]
      ensures answered == old(answered) + Identities(responses)
    {
      hide Span;
      hide AllSettled;
      hide Balanced;
      hide Identities;
      clock.Revoke();
      if command == Resetting {
        BalanceAnswer(received, answered, activeId, r.id);
        answered := answered + multiset{r.id};
        responses := [Err(r.id, "NOT_RUNNING")];
        IdentitiesOfOne(responses[0]);
        return;
      }
      responses := AnswerStop(r.id);
      FreeOnceAnswered();
      Halt(s);
    }

    /** The answers a STOP causes: one for the interrupted command, if any, and its own. */
    method AnswerStop(id: int) returns (responses: seq<Response>)
      requires Balanced(received, answered, activeId, multiset{id})
      modifies this`answered
      ensures Balanced(received, answered, -1, multiset{})
      ensures responses == (if activeId >= 1 then [Err(activeId, "USER_STOPPED")] else []) + [Ok(id)]
      ensures answered == old(answered) + Identities(responses)
    {
      hide Balanced;
      hide Identities;
      responses := [];
      IdentitiesOfNone();
      IdentitiesOfOne(Ok(id));
      if activeId >= 1 {
        responses := [Err(activeId, "USER_STOPPED")];
        IdentitiesOfOne(responses[0]);
        BalanceFinish(received, answered, activeId, multiset{id});
        answered := answered + multiset{activeId};
      } else {
        BalanceNone(received, answered, activeId, multiset{id});
      }
      IdentitiesOfBoth(responses, [Ok(id)]);
      responses := responses + [Ok(id)];
      BalanceAnswer(received, answered, -1, id);
      answered := answered + multiset{id};
    }

    /** What holds between commands, whatever the flight state: nothing is owed or in progress. */
    ghost predicate Free()
      reads this`history, this`settled, this`accepted, this`received, this`answered, this`previousTime
    {
      && AllSettled(history, settled, origin) && AllAdmitted(accepted, origin) && Known(settled, accepted)
      && Balanced(received, answered, -1, multiset{}) && previousTime >= 0.0
    }

    lemma FreeOnceAnswered()
      requires Settling() && Obeying() && previousTime >= 0.0 && Balanced(received, answered, -1, multiset{})
      ensures Free()
    {
    }

    /** Back to idle. */
    method Drop()
      requires Free() && (clock.active ==> airborne && !failsafeLatched) && 0.1 <= moveSpeedLimit <= VX_MAX
      modifies this`command, this`activeId, this`stableSince
      ensures Valid() && command == Idle
    {
      hide AllSettled;
      hide AllAdmitted;
      hide Known;
      hide Balanced;
      command, activeId, stableSince := Idle, -1, -1.0;
    }

    /** Drop the command, hold the pose, latch the fail-safe; still airborne only above the ground tolerance. */
    method Halt(s: Sample)
      requires Consistent() && Free() && !clock.active
      modifies this`target, this`airborne, this`failsafeLatched, this`command, this`activeId, this`activeValue,
               this`stableSince
      ensures Valid() && command == Idle && failsafeLatched && airborne == (s.pose.z > origin.z + ALT_TOL)
      ensures target == Target(s.pose.x, s.pose.y, s.pose.z, s.pose.yaw)
    {
      hide Flight.Free;
      hide Flight.Owing;
      target := Target(s.pose.x, s.pose.y, s.pose.z, s.pose.yaw);
      airborne := s.pose.z > origin.z + ALT_TOL;
      failsafeLatched, activeValue := true, 0.0;
      Drop();
    }

    /** RESET: ground the vehicle, clear the latch, start the reset command. */
    method HandleReset(r: Request, s: Sample)
      requires r.Reset? && r.id >= 1 && Owing(multiset{r.id}) && command == Idle && s.now >= 0.0
      modifies this`target, this`airborne, this`failsafeLatched, this`command, this`activeId, this`activeValue,
               this`moveSpeedLimit, this`stableSince, this`actionStart, this`accepted, clock
      ensures Valid() && command == Resetting && activeId == r.id && actionStart == s.now && !airborne
              && !failsafeLatched
      ensures target == HomeTarget(origin) && moveSpeedLimit == VX_MAX && activeValue == 0.0 && stableSince < 0.0
      ensures !clock.active && accepted == old(accepted) + [Order(r, s, old(airborne), old(target.z))]
    {
      hide Span;
      hide AllSettled;
      hide Balanced;
      ghost var o := Order(r, s, airborne, target.z);
      clock.Revoke();
      airborne, failsafeLatched, moveSpeedLimit := false, false, VX_MAX;
      Begin(Resetting, r.id, 0.0, HomeTarget(origin), s.now, o);
    }

    /** Requests answered at once: scene, clock, range, speed, light. */
    method HandleInstant(r: Request, s: Sample, v: Motion) returns (response: Response)
      requires r.Scene? || r.Elapsed? || r.Range? || r.Speed? || r.Light?
      requires r.id >= 1 && Owing(multiset{r.id}) && command == Idle && !failsafeLatched
      modifies this`moveSpeedLimit, this`answered, clock
      ensures Valid() && response.id == r.id && command == Idle && answered == old(answered) + multiset{r.id}
      ensures !r.Elapsed? ==> response == AnswerAtOnce(r, s, v, airborne, origin)
      ensures moveSpeedLimit == if r.Speed? && response.Ok? then r.value.Or0() else old(moveSpeedLimit)
      ensures r.Elapsed? ==> response.Value? || response == Err(r.id, "TIME_UNAVAILABLE")
      ensures r.Elapsed? && airborne && old(clock.active) && s.now >= old(clock.last) ==> response.Value?
      ensures r.Elapsed? && response.Value? ==> airborne && old(clock.active) && response.value == s.now - clock.start
      ensures r.Elapsed? && response.Value? ==> s.now >= old(clock.last) && clock.active
    {
      hide Span;
      hide AllSettled;
      hide Balanced;
      hide Closer;
      BalanceAnswer(received, answered, activeId, r.id);
      answered := answered + multiset{r.id};
      match r
      case Scene(id, selected) =>
        if airborne || !Closer(s.pose.x - origin.x, s.pose.y - origin.y, POSITION_TOL)
            || Abs(s.pose.z - origin.z) > ALT_TOL
           || !Closer(v.vx, v.vy, SPEED_TOL) || Abs(v.vz) > VZ_TOL {
          return Err(id, "RESET_REQUIRED");
        }
        return if selected then Ok(id) else Err(id, "SCENE_UNAVAILABLE");
      case Elapsed(id) =>
        if !airborne {
          return Err(id, "TIME_UNAVAILABLE");
        }
        var seconds := clock.Read(Finite(s.now));
        return if seconds.Some? then Value(id, seconds.value) else Err(id, "TIME_UNAVAILABLE");
      case Range(id, known, reading) =>
        if !known {
          return Err(id, "CAPABILITY_UNAVAILABLE");
        }
        if !Within(reading, 0.0, 2.001) {
          return Err(id, "INVALID_RANGE_SAMPLE");
        }
        return Value(id, reading.value);
      case Speed(id, value) =>
        if !Within(value, 0.1, VX_MAX) {
          return Err(id, "INVALID_SPEED");
        }
        moveSpeedLimit := value.value;
        return Ok(id);
      case Light(id, known) =>
        return if known then Ok(id) else Err(id, "INVALID_LIGHT");
    }


    /** Flight requests: each is refused with an error or becomes the active command. */
    method HandleMotion(r: Request, s: Sample) returns (refusal: Option<string>)
      requires FlightRequest(r)
      requires r.id >= 1 && Owing(multiset{r.id}) && command == Idle && !failsafeLatched && s.now >= 0.0
      modifies this`target, this`command, this`activeId, this`activeValue, this`stableSince, this`actionStart,
               this`landStartZ, this`landTouchdown, this`accepted, clock
      ensures refusal == RefusalOf(r, s, airborne, origin.z)
      ensures refusal.None? ==> accepted == old(accepted) + [Order(r, s, airborne, old(target.z))]
      ensures refusal.Some? ==> Owing(multiset{r.id}) && unchanged(this) && unchanged(clock)
      ensures refusal.None? ==> Valid() && activeId == r.id && actionStart == s.now && stableSince < 0.0
      ensures refusal.None? ==> command == CommandFor(r) && target == Aim(r, s, origin.z, old(target.z))
      ensures refusal.None? && r.TakeOff? ==> clock.active && clock.start == clock.last == s.now
      ensures refusal.None? && r.Land? ==> landStartZ == s.pose.z && !landTouchdown
      ensures refusal.None? && r.Wait? ==> activeValue == r.value.Or0()
    {
      hide Flight.Owing;
      hide RefusalOf;
      hide Aim;
      hide Wrapped;
      refusal := RefusalNow(r, s);
      if refusal.Some? {
        return;
      }
      AimIsSafe(r, s, airborne, origin.z, target.z);
      ghost var o := Order(r, s, airborne, target.z);
      var next, value, aim := Plan(r, s);
      if r.Land? {
        StartLanding(s.pose.z, r.id);
      }
      Begin(next, r.id, value, aim, s.now, o);
      if r.TakeOff? {
        StartClock(s.now);
      }
    }

    /** The command, value and target of an admitted request. */
    method Plan(r: Request, s: Sample) returns (next: Command, value: real, aim: Target)
      requires FlightRequest(r) && RefusalOf(r, s, airborne, origin.z).None?
      ensures next == CommandFor(r) && aim == Aim(r, s, origin.z, target.z)
      ensures value == if r.Land? then 0.0 else r.value.Or0()
    {
      hide Wrapped;
      hide MoveTarget;
      var here := Target(s.pose.x, s.pose.y, s.pose.z, s.pose.yaw);
      match r
      case TakeOff(id, height, sceneReady) =>
        next, value, aim := TakingOff, height.value, here.(z := origin.z + height.value);
      case Move(id, heading, distance) =>
        next, value, aim := Moving, distance.value, MoveTarget(s, heading, distance.value, target.z);
      case Vertical(id, climb, distance) =>
        var way := if climb == Up then distance.value else -distance.value;
        next, value, aim := Climbing, distance.value, here.(z := s.pose.z + way);
      case Turn(id, angle) =>
        var yaw := WrapAngle(s.pose.yaw + angle.value * PI / 180.0);
        next, value, aim := Turning, angle.value, here.(yaw := yaw);
      case Wait(id, seconds) =>
        next, value, aim := Waiting, seconds.value, here;
      case Land(id) =>
        next, value, aim := Landing, 0.0, here.(z := origin.z);
    }

    /** The program clock starts with an admitted take-off. */
    method StartClock(now: real)
      requires Valid() && command == TakingOff && now >= 0.0
      modifies clock
      ensures Valid() && clock.active && clock.start == clock.last == now
    {
      hide Span;
      hide AllSettled;
      hide Balanced;
      clock.Begin(Finite(now));
    }

    method StartLanding(z: real, id: int)
      requires Owing(multiset{id})
      modifies this`landStartZ, this`landTouchdown
      ensures Owing(multiset{id}) && landStartZ == z && !landTouchdown
    {
      hide Span;
      hide AllSettled;
      hide Balanced;
      landStartZ, landTouchdown := z, false;
    }

    /** The checks of a flight request, in the order of the loop. */
    method RefusalNow(r: Request, s: Sample) returns (refusal: Option<string>)
      requires FlightRequest(r)
      ensures refusal == RefusalOf(r, s, airborne, origin.z)
    {
      match r
      case TakeOff(id, value, sceneReady) =>
        if !sceneReady {
          return Some("SCENE_UNAVAILABLE");
        }
        return if airborne || !Within(value, 0.2, 1.5) then Some("INVALID_TAKEOFF") else None;
      case Move(id, heading, value) =>
        return if !airborne || !Within(value, 0.01, 2.0) || heading == UnknownHeading then Some("INVALID_MOVE")
            else None;
      case Vertical(id, climb, value) =>
        if !airborne || !Within(value, 0.1, 0.8) || climb == UnknownClimb {
          return Some("INVALID_VERTICAL");
        }
        var next := s.pose.z + (if climb == Up then value.value else -value.value);
        return if next < origin.z + 0.2 || next > origin.z + 1.5 then Some("VERTICAL_LIMIT") else None;
      case Turn(id, value) =>
        return if !airborne || value.NotFinite? || Abs(value.value) < 1.0 || Abs(value.value) > 179.0
               then Some("INVALID_TURN") else None;
      case Wait(id, value) =>
        return if !airborne || !Within(value, 0.1, 5.0) then Some("INVALID_WAIT") else None;
      case Land(id) =>
        return if !airborne then Some("INVALID_LAND") else None;
    }

    /** The same command goes on, with its start time and touchdown latch. */
    ghost predicate Continued(command: Command, id: int, start: real, touchdown: bool)
      reads this`command, this`activeId, this`actionStart, this`landTouchdown
    {
      this.command == command && activeId == id && actionStart == start && landTouchdown == touchdown
    }

    lemma GoesOn()
      ensures Continued(command, activeId, actionStart, landTouchdown)
    {
    }

    /** The request became the active command. */
    ghost predicate Took(r: Request, s: Sample, before: seq<Order>, airborne: bool, height: real)
      reads this`accepted, this`actionStart, this`activeId
    {
      accepted == before + [Order(r, s, airborne, height)] && actionStart == s.now && activeId == r.id && r.Action()
    }

    /** At most this request was admitted. */
    ghost predicate AcceptedOne(r: Request, s: Sample, before: seq<Order>)
      reads this`accepted
    {
      || accepted == before
      || (|accepted| == |before| + 1 && before < accepted && accepted[|before|].request == r
         && accepted[|before|].sample == s)
    }

    ghost function Now(): Doing
      reads this`command, this`activeId
    {
      if command == Idle then Rest else Busy(activeId, command == Resetting)
    }

    predicate Latched()
      reads this`failsafeLatched, this`command
    {
      failsafeLatched && command == Idle
    }

    /** Responses to one request: one of its own, plus the one that STOP sends for the command it ends. */
    ghost predicate AnswersOne(r: Request, responses: seq<Response>, before: int) {
      && |responses| <= 2
      && (|responses| == 2 ==> responses[0] == Err(before, "USER_STOPPED") && r.Stop?)
      && (forall k :: 0 <= k < |responses| && responses[k].Ok? ==> responses[k].id == r.id && !r.Action())
    }

    method Receive(id: int)
      requires Valid()
      modifies this`received
      ensures Owing(multiset{id}) && received == old(received) + multiset{id}
    {
      BalanceReceive(received, answered, activeId, id);
      hide Balanced;
      hide AllSettled;
      hide Span;
      received := received + multiset{id};
    }

    method Refuse(id: int, code: string) returns (responses: seq<Response>)
      requires Owing(multiset{id})
      modifies this`answered
      ensures Valid() && responses == [Err(id, code)] && answered == old(answered) + Identities(responses)
      ensures forall r, before :: AnswersOne(r, responses, before)
    {
      BalanceAnswer(received, answered, activeId, id);
      hide Balanced;
      hide AllSettled;
      hide Span;
      answered := answered + multiset{id};
      responses := [Err(id, code)];
      IdentitiesOfOne(responses[0]);
    }

    /** One received request; one without a usable identifier is ignored. */
    method HandleRequest(r: Request, s: Sample, v: Motion) returns (responses: seq<Response>)
      requires Valid() && s.now >= 0.0
      modifies this`target, this`airborne, this`failsafeLatched, this`command, this`activeId, this`activeValue,
               this`moveSpeedLimit,
               this`stableSince, this`actionStart, this`landStartZ, this`landTouchdown, this`received, this`answered,
               this`accepted, clock
      ensures Valid() && AnswersOne(r, responses, old(activeId)) && Reacts(r, old(Now()), Now(), responses)
      ensures received == old(received) + (if r.id >= 1 then multiset{r.id} else multiset{})
      ensures answered == old(answered) + Identities(responses)
      ensures old(command) != Idle ==>
                Continued(old(command), old(activeId), old(actionStart), old(landTouchdown)) || Latched()
      ensures old(command) == Idle ==> command == Idle || Took(r, s, old(accepted), old(airborne), old(target.z))
      ensures AcceptedOne(r, s, old(accepted))
      ensures old(failsafeLatched) ==> Latched() || (r.Reset? && command == Resetting)
    {
      hide Flight.Owing;
      hide Flight.AnswersOne;
      hide Identities;
      IdentitiesOfNone();
      LatchedIsIdle();
      GoesOn();
      if r.id < 1 {
        NothingAnswers(r, activeId);
        return [];
      }
      Receive(r.id);
      responses := Dispatch(r, s, v);
    }

    /** The order of the checks of the loop. */
    method Dispatch(r: Request, s: Sample, v: Motion) returns (responses: seq<Response>)
      requires Owing(multiset{r.id}) && r.id >= 1 && s.now >= 0.0
      modifies this`target, this`airborne, this`failsafeLatched, this`command, this`activeId, this`activeValue,
               this`moveSpeedLimit,
               this`stableSince, this`actionStart, this`landStartZ, this`landTouchdown, this`answered, this`accepted,
               clock
      ensures Valid() && AnswersOne(r, responses, old(activeId)) && answered == old(answered) + Identities(responses)
      ensures Reacts(r, old(Now()), Now(), responses)
      ensures old(command) != Idle ==>
                Continued(old(command), old(activeId), old(actionStart), old(landTouchdown)) || Latched()
      ensures old(command) == Idle ==> command == Idle || Took(r, s, old(accepted), old(airborne), old(target.z))
      ensures AcceptedOne(r, s, old(accepted))
      ensures old(failsafeLatched) && old(command) == Idle ==> Latched() || (r.Reset? && command == Resetting)
    {
      hide Flight.Owing;
      hide Flight.AnswersOne;
      hide Flight.Continued;
      hide Identities;
      GoesOn();
      ActiveIsBusy(multiset{r.id});
      if r.Stop? {
        responses := HandleStop(r, s);
        StopAnswers(r, responses, old(activeId));
      } else if r.Invalid? {
        responses := Refuse(r.id, "INVALID_REQUEST");
      } else if command != Idle {
        responses := Refuse(r.id, "BUSY");
      } else {
        responses := HandleIdle(r, s, v);
        AnswersAnyBefore(r, responses, activeId, old(activeId));
      }
    }

    /** A well-formed request other than STOP, while no command is active. */
    method HandleIdle(r: Request, s: Sample, v: Motion) returns (responses: seq<Response>)
      requires Owing(multiset{r.id}) && r.id >= 1 && command == Idle && !r.Stop? && !r.Invalid? && s.now >= 0.0
      modifies this`target, this`airborne, this`failsafeLatched, this`command, this`activeId, this`activeValue,
               this`moveSpeedLimit,
               this`stableSince, this`actionStart, this`landStartZ, this`landTouchdown, this`answered, this`accepted,
               clock
      ensures Valid() && AnswersOne(r, responses, activeId) && |responses| <= 1
      ensures answered == old(answered) + Identities(responses) && Reacts(r, Rest, Now(), responses)
      ensures command == Idle || Took(r, s, old(accepted), old(airborne), old(target.z))
      ensures AcceptedOne(r, s, old(accepted))
      ensures old(failsafeLatched) ==> Latched() || (r.Reset? && command == Resetting)
    {
      hide Flight.Owing;
      hide Flight.AnswersOne;
      hide Identities;
      hide AnswerAtOnce;
      hide RefusalOf;
      hide Aim;
      hide CommandFor;
      IdentitiesOfNone();
      if r.Reset? {
        HandleReset(r, s);
        responses := [];
        NothingAnswers(r, activeId);
      } else if failsafeLatched {
        responses := Refuse(r.id, "RESET_REQUIRED");
      } else if r.Scene? || r.Elapsed? || r.Range? || r.Speed? || r.Light? {
        var response := HandleInstant(r, s, v);
        responses := [response];
        IdentitiesOfOne(response);
        InstantAnswers(r, response, activeId);
      } else {
        CommandIsFlight(r);
        var refusal := HandleMotion(r, s);
        responses := [];
        NothingAnswers(r, activeId);
        if refusal.Some? {
          responses := Refuse(r.id, refusal.value);
        }
      }
    }

    lemma ActiveIsBusy(owed: multiset<int>)
      requires Owing(owed)
      ensures command == Idle <==> activeId < 1
    {
    }

    lemma AnswersAnyBefore(r: Request, responses: seq<Response>, before: int, other: int)
      requires AnswersOne(r, responses, before) && |responses| <= 1
      ensures AnswersOne(r, responses, other)
    {
    }

    lemma NothingAnswers(r: Request, before: int)
      ensures AnswersOne(r, [], before)
    {
    }

    lemma InstantAnswers(r: Request, response: Response, before: int)
      requires response.id == r.id && !r.Action()
      ensures AnswersOne(r, [response], before)
    {
    }

    lemma StopAnswers(r: Request, responses: seq<Response>, before: int)
      requires r.Stop?
      requires responses == [Err(r.id, "NOT_RUNNING")] || responses == [Ok(r.id)]
               || responses == [Err(before, "USER_STOPPED"), Ok(r.id)]
      ensures AnswersOne(r, responses, before)
    {
    }

    lemma LatchedIsIdle()
      requires Valid()
      ensures failsafeLatched ==> command == Idle
    {
    }

    // ---------- fail-safe, settling, timeouts ----------

    /** Stop everything until a RESET: used by unsafe attitudes and by timeouts. */
    method FailSafe()
      requires Consistent() && Free()
      modifies this`airborne, this`failsafeLatched, this`command, this`activeId, this`stableSince, clock
      ensures Valid() && command == Idle && !airborne && failsafeLatched && !clock.active
    {
      hide Flight.Free;
      hide Flight.Owing;
      clock.Revoke();
      airborne, failsafeLatched := false, true;
      Drop();
    }

    /** Answer the active command with an error and fall into the fail-safe. */
    method Abort(code: string) returns (response: Response)
      requires Valid() && command != Idle
      modifies this`airborne, this`failsafeLatched, this`command, this`activeId, this`stableSince, this`answered, clock
      ensures Valid() && command == Idle && !airborne && failsafeLatched && !clock.active
              && response == Err(old(activeId), code)
      ensures answered == old(answered) + multiset{old(activeId)}
    {
      response := Err(activeId, code);
      BalanceFinish(received, answered, activeId, multiset{});
      hide Balanced;
      answered := answered + multiset{activeId};
      FreeOnceAnswered();
      FailSafe();
    }

    /** Answer the active command OK and record the samples that settled it. */
    method Complete(ghost e: Settled) returns (response: Response)
      requires Valid() && command != Idle && SettledBy(history, e, origin) && e.order == accepted[|accepted| - 1]
      modifies this`airborne, this`command, this`activeId, this`stableSince, this`answered, this`settled, clock
      ensures Valid() && command == Idle && response == Ok(old(activeId)) && settled == old(settled) + [e]
      ensures answered == old(answered) + multiset{old(activeId)}
      ensures old(command) == Landing ==> !airborne && !clock.active
      ensures old(command) == TakingOff ==> airborne
    {
      response := Ok(activeId);
      hide Balanced;
      hide AllSettled;
      hide SettledBy;
      hide Flight.Stable;
      hide Executes;
      hide AllAdmitted;
      Record(e);
      Retire();
    }

    /** Back to idle after a completed command. */
    method Retire()
      requires Consistent() && Free()
      modifies this`airborne, this`command, this`activeId, this`stableSince, clock
      ensures Valid() && command == Idle
      ensures old(command) == Landing ==> !airborne && !clock.active
      ensures old(command) == TakingOff ==> airborne
    {
      hide Flight.Free;
      hide Flight.Owing;
      if command == Landing {
        clock.Revoke();
      }
      airborne := command == TakingOff || (airborne && command != Landing);
      Drop();
    }

    method Record(ghost e: Settled)
      requires Valid() && command != Idle && SettledBy(history, e, origin) && e.order in accepted
      modifies this`answered, this`settled
      ensures settled == old(settled) + [e] && Free()
      ensures answered == old(answered) + multiset{activeId}
    {
      BalanceFinish(received, answered, activeId, multiset{});
      AllSettledWith(history, settled, e, origin);
      answered := answered + multiset{activeId};
      settled := settled + [e];
    }

    /** The tolerance of the active command on this sample, with angles wrapped by the loop. */
    method CheckReady(s: Sample, v: Motion) returns (met: bool)
      ensures met == Ready(command, v, s, target, origin)
    {
      hide Wrapped;
      hide Closer;
      hide Slower;
      match command
      case Idle => met := false;
      case TakingOff => met := Level(v, s, target);
      case Landing => met := Grounded(v, s, origin);
      case Resetting =>
        var yawError := WrapAngle(s.pose.yaw - origin.yaw);
        met := Abs(s.pose.x - origin.x) < POSITION_TOL && Abs(s.pose.y - origin.y) < POSITION_TOL
            && Abs(s.pose.z - origin.z) < ALT_TOL
               && Abs(s.pose.roll - origin.roll) < YAW_TOL && Abs(s.pose.pitch - origin.pitch) < YAW_TOL
               && Abs(yawError) < YAW_TOL && Steady(v, s);
      case _ =>
        var yawError := WrapAngle(target.yaw - s.pose.yaw);
        met := Closer(target.x - s.pose.x, target.y - s.pose.y, POSITION_TOL) && Abs(yawError) <= YAW_TOL
               && Steady(v, s) && Abs(s.pose.z - target.z) < ALT_TOL;
    }

    /** The order in progress. */
    ghost function Executing(): Option<Order>
      reads this`command, this`accepted
    {
      if command == Idle || accepted == [] then None else Some(accepted[|accepted| - 1])
    }

    /** Record a processed sample: a stable stretch it belongs to grows, or a new one starts, or there is none. */
    method Note(s: Sample, v: Motion, met: bool)
      requires Valid() && s.now >= 0.0 && met == Ready(command, v, s, target, origin)
      modifies this`history, this`stableSince, this`settling
      ensures Valid() && history == old(history) + [Processed(s, v, Executing())]
      ensures command == Waiting || !met ==> stableSince < 0.0
      ensures met && command != Waiting ==>
                Stable() && stableSince == (if old(stableSince) >= 0.0 then old(stableSince) else s.now)
    {
      MetNow(s, v);
      hide Ready;
      hide Met;
      hide Flight.Accounted;
      hide Flight.Consistent;
      hide Flight.Obeying;
      hide Flight.Stable;
      hide Flight.Settling;
      hide AllSettled;
      Extend(Processed(s, v, Executing()));
      Mark(s.now, met);
    }

    /** The stable stretch after the latest sample. */
    method Mark(now: real, met: bool)
      requires AllSettled(history, settled, origin) && history != [] && history[|history| - 1].sample.now == now
               && now >= 0.0
      requires met ==>
                 command != Idle && accepted != [] && Met(history[|history| - 1], accepted[|accepted| - 1], origin)
      requires met && stableSince >= 0.0 ==> Stable()
      modifies this`stableSince, this`settling
      ensures Settling()
      ensures command == Waiting || !met ==> stableSince < 0.0
      ensures met && command != Waiting ==>
                Stable() && stableSince == (if old(stableSince) >= 0.0 then old(stableSince) else now)
    {
      hide Met;
      hide AllSettled;
      hide Flight.Stable;
      if !met || command == Waiting {
        stableSince := -1.0;
      } else if stableSince < 0.0 {
        StartStable(now);
      }
    }

    /** The history grows; a stable stretch grows with a sample that met the tolerance. */
    ghost method Extend(p: Processed)
      requires Settling() && (command != Idle ==> accepted != [])
      modifies this`history
      ensures history == old(history) + [p] && AllSettled(history, settled, origin)
      ensures stableSince >= 0.0 && Met(p, accepted[|accepted| - 1], origin) ==> Stable()
    {
      hide Met;
      AllSettledAfter(history, p, settled, origin);
      hide AllSettled;
      if stableSince >= 0.0 {
        SpanExtends(history, p, settling, |history| - 1, accepted[|accepted| - 1], origin);
      }
      history := history + [p];
    }

    /** A stable stretch starts with the latest sample. */
    method StartStable(now: real)
      requires command != Idle && command != Waiting && accepted != [] && history != []
      requires Met(history[|history| - 1], accepted[|accepted| - 1], origin) && history[|history| - 1].sample.now == now
      modifies this`stableSince, this`settling
      ensures Stable() && stableSince == now
    {
      hide Met;
      settling, stableSince := |history| - 1, now;
    }

    /** The tolerance checked by the loop is that of the order in progress. */
    lemma MetNow(s: Sample, v: Motion)
      requires Valid()
      ensures command == Idle ==> !Ready(command, v, s, target, origin)
      ensures command != Idle ==> accepted != []
      ensures command != Idle ==>
                (Ready(command, v, s, target, origin) <==>
                      Met(Processed(s, v, Executing()), accepted[|accepted| - 1], origin))
    {
      hide AllAdmitted;
      hide Known;
      hide TargetOf;
      hide CommandOf;
    }

    /** One more order was settled, by samples up to the latest. */
    ghost predicate JustSettled(id: int, before: seq<Settled>)
      reads this`settled, this`history
    {
      exists e :: settled == before + [e] && e.order.request.id == id && e.last == |history| - 1
    }

    /** No stable stretch, or one that is still shorter than its window. */
    predicate NotDue(s: Sample)
      reads this`stableSince, this`command
    {
      stableSince < 0.0 || s.now - stableSince < Window(command)
    }

    /** Evaluate the active command on this sample and answer it once its window is full. */
    method Settle(s: Sample, v: Motion) returns (responses: seq<Response>)
      requires Valid() && s.now >= 0.0 && command != Idle
      modifies this`history, this`stableSince, this`settling, this`airborne, this`command, this`activeId,
               this`answered, this`settled, clock
      ensures Valid() && history == old(history) + [Processed(s, v, old(Executing()))]
              && answered == old(answered) + Identities(responses)
      ensures responses == [] ==> settled == old(settled) && command == old(command) && activeId == old(activeId)
      ensures responses != [] ==>
                command == Idle && responses == [Ok(old(activeId))] && JustSettled(old(activeId), old(settled))
      ensures responses != [] ==> settled[|settled| - 1].order == accepted[|accepted| - 1]
      ensures responses == [] && command != Waiting ==> NotDue(s)
      ensures responses == [] && command == Waiting ==>
                !Ready(command, v, s, target, origin) || s.now - actionStart < activeValue
      ensures responses != [] && old(command) == Waiting ==> s.now - actionStart >= activeValue
      ensures responses != [] && old(command) == Landing ==> !airborne
      ensures command != Idle ==> airborne == old(airborne)
    {
      hide Identities;
      hide Flight.Owing;
      hide Ready;
      ActiveOrder();
      MetNow(s, v);
      var met := CheckReady(s, v);
      Note(s, v, met);
      responses := Conclude(s, v, met);
    }

    /** The window of the active command is full, or the time of a WAIT is over. */
    predicate Due(s: Sample)
      reads this`command, this`actionStart, this`activeValue, this`stableSince
    {
      if command == Waiting then s.now - actionStart >= activeValue else s.now - stableSince >= Window(command)
    }

    method Conclude(s: Sample, v: Motion, met: bool) returns (responses: seq<Response>)
      requires Valid() && command != Idle && history != [] && history[|history| - 1] == Processed(s, v, Executing())
      requires met ==>
                 Met(history[|history| - 1], accepted[|accepted| - 1], origin) && (command != Waiting ==> Stable())
      modifies this`stableSince, this`airborne, this`command, this`activeId, this`answered, this`settled, clock
      ensures Valid() && answered == old(answered) + Identities(responses)
      ensures old(met && Due(s)) ==>
                command == Idle && responses == [Ok(old(activeId))] && JustSettled(old(activeId), old(settled))
                                     && settled[|settled| - 1].order == accepted[|accepted| - 1]
      ensures !old(met && Due(s)) ==> responses == [] && settled == old(settled) && command == old(command)
                                      && activeId == old(activeId) && stableSince == old(stableSince)
                                         && airborne == old(airborne)
      ensures command == Idle && old(command) == Landing ==> !airborne
    {
      hide Identities;
      hide Flight.Owing;
      hide Met;
      ActiveOrder();
      responses := [];
      IdentitiesOfNone();
      if met && Due(s) {
        ghost var first := if command == Waiting then |history| - 1 else settling;
        ghost var e := Settled(accepted[|accepted| - 1], first, |history| - 1);
        DueIsSettled(s, v, first);
        var response := Complete(e);
        IdentitiesOfOne(response);
        responses := [response];
      }
    }

    lemma ActiveOrder()
      requires Valid() && command != Idle
      ensures accepted != [] && Executes(accepted[|accepted| - 1], origin, command, activeId, activeValue, target,
              actionStart)
    {
    }

    lemma DueIsSettled(s: Sample, v: Motion, first: nat)
      requires command != Idle && accepted != []
      requires Executes(accepted[|accepted| - 1], origin, command, activeId, activeValue, target, actionStart)
      requires |history| > 0 && history[|history| - 1] == Processed(s, v, Executing())
      requires Met(history[|history| - 1], accepted[|accepted| - 1], origin)
      requires command == Waiting ==> first == |history| - 1 && s.now - actionStart >= activeValue
      requires command != Waiting ==> first == settling && Stable() && s.now - stableSince >= Window(command)
      ensures SettledBy(history, Settled(accepted[|accepted| - 1], first, |history| - 1), origin)
    {
      hide Ready;
      hide TargetOf;
    }

    predicate Unsafe(s: Sample) {
      Abs(s.pose.roll) > UNSAFE_ANGLE || Abs(s.pose.pitch) > UNSAFE_ANGLE
    }

    /** An unsafe attitude under way, or a command past its time limit. */
    predicate Trips(s: Sample)
      reads this
    {
      || (command == Idle && airborne && Unsafe(s))
      || (command != Idle && command != Resetting && Unsafe(s))
      || (command != Idle && s.now - actionStart > Limit(command))
    }

    /** The fail-safe checks of the loop, before any command is evaluated. */
    method Guard(s: Sample) returns (responses: seq<Response>, tripped: bool)
      requires Valid()
      modifies this`airborne, this`failsafeLatched, this`command, this`activeId, this`stableSince, this`answered, clock
      ensures Valid() && answered == old(answered) + Identities(responses)
      ensures tripped <==> old(Trips(s))
      ensures tripped ==> command == Idle && !airborne && failsafeLatched && !clock.active
      ensures tripped ==> responses == (if old(command) == Idle then [] else
                [Err(old(activeId), if old(command) == Resetting then "RESET_TIMEOUT" else "UNSAFE_OR_TIMEOUT")])
      ensures !tripped ==>
                responses == [] && command == old(command) && activeId == old(activeId) && airborne == old(airborne)
                           && stableSince == old(stableSince) && failsafeLatched == old(failsafeLatched)
      ensures !tripped && command != Idle ==> s.now - actionStart <= Limit(command)
      ensures !tripped && airborne && command != Resetting ==> !Unsafe(s)
    {
      hide Balanced;
      hide AllSettled;
      hide Span;
      hide Identities;
      responses, tripped := [], false;
      IdentitiesOfNone();
      if command == Idle && airborne && Unsafe(s) {
        BalanceNone(received, answered, activeId, multiset{});
        FreeOnceAnswered();
        FailSafe();
        return [], true;
      }
      if command != Idle && command != Resetting && (Unsafe(s) || s.now - actionStart > ACTION_TIMEOUT) {
        var response := Abort("UNSAFE_OR_TIMEOUT");
        IdentitiesOfOne(response);
        return [response], true;
      }
      if command == Resetting && s.now - actionStart > RESET_TIMEOUT {
        var response := Abort("RESET_TIMEOUT");
        IdentitiesOfOne(response);
        return [response], true;
      }
    }

    /** What the first n messages of a step, and the responses to them, have done since `entry`. */
    ghost predicate Handled(inbox: seq<Request>, n: nat, responses: seq<Response>, s: Sample, entry: Entry)
      requires n <= |inbox|
      reads this
    {
      && received == entry.received + Identifiers(inbox[..n]) && answered == entry.answered + Identities(responses)
      && (entry.latched && NoReset(inbox[..n]) ==> Latched())
      && (entry.landing ==> StillLanding(entry.touchdown))
      && Explained(inbox, responses) && Taken(inbox, s, entry.accepted)
    }

    /** What was admitted since: requests among these messages, judged on this sample. */
    ghost predicate Taken(inbox: seq<Request>, s: Sample, before: seq<Order>)
      reads this`accepted
    {
      && before <= accepted
      && forall i :: |before| <= i < |accepted| ==> accepted[i].sample == s && accepted[i].request in inbox
    }

    lemma TakenMore(inbox: seq<Request>, r: Request, s: Sample, start: seq<Order>, before: seq<Order>)
      requires r in inbox && AcceptedOne(r, s, before)
      requires start <= before && forall i ::
                 |start| <= i < |before| ==> before[i].sample == s && before[i].request in inbox
      ensures Taken(inbox, s, start)
    {
    }

    ghost function Entering(): Entry
      reads this
    {
      Entry(received, answered, accepted, failsafeLatched, command == Landing, landTouchdown)
    }

    lemma NothingHandled(inbox: seq<Request>, s: Sample)
      requires Valid()
      ensures Handled(inbox, 0, [], s, Entering())
    {
    }

    method HandleNext(inbox: seq<Request>, i: nat, s: Sample, v: Motion, responses: seq<Response>, ghost entry: Entry)
      returns (more: seq<Response>)
      requires Valid() && s.now >= 0.0 && i < |inbox| && Handled(inbox, i, responses, s, entry)
      modifies this`target, this`airborne, this`failsafeLatched, this`command, this`activeId, this`activeValue,
               this`moveSpeedLimit,
               this`stableSince, this`actionStart, this`landStartZ, this`landTouchdown, this`received, this`answered,
               this`accepted, clock
      ensures Valid() && Handled(inbox, i + 1, responses + more, s, entry)
    {
      hide Flight.Owing;
      hide Flight.Explained;
      hide Flight.AnswersOne;
      hide Flight.AcceptedOne;
      hide Flight.Took;
      hide Identities;
      LatchedIsIdle();
      assert inbox[..i + 1] == inbox[..i] + [inbox[i]];
      ghost var before := accepted;
      more := HandleRequest(inbox[i], s, v);
      TakenMore(inbox, inbox[i], s, entry.accepted, before);
      ExplainedMore(inbox, i, responses, more, old(activeId));
      IdentitiesOfBoth(responses, more);
    }

    /** The messages of one step, in order of arrival. */
    method HandleInbox(inbox: seq<Request>, s: Sample, v: Motion) returns (responses: seq<Response>)
      requires Valid() && s.now >= 0.0
      modifies this`target, this`airborne, this`failsafeLatched, this`command, this`activeId, this`activeValue,
               this`moveSpeedLimit,
               this`stableSince, this`actionStart, this`landStartZ, this`landTouchdown, this`received, this`answered,
               this`accepted, clock
      ensures Valid() && received == old(received) + Identifiers(inbox)
              && answered == old(answered) + Identities(responses)
      ensures old(Latched()) && NoReset(inbox) ==> Latched()
      ensures old(command) == Landing && old(landTouchdown) && command == Landing ==> landTouchdown
      ensures Explained(inbox, responses) && Taken(inbox, s, old(accepted))
    {
      hide Flight.Owing;
      hide Flight.Handled;
      responses := [];
      NothingHandled(inbox, s);
      for i := 0 to |inbox|
        invariant Valid() && Handled(inbox, i, responses, s, old(Entering()))
      {
        var more := HandleNext(inbox, i, s, v, responses, old(Entering()));
        responses := responses + more;
      }
      AllHandled(inbox, responses, s, old(Entering()));
    }

    lemma AllHandled(inbox: seq<Request>, responses: seq<Response>, s: Sample, entry: Entry)
      requires Handled(inbox, |inbox|, responses, s, entry)
      ensures received == entry.received + Identifiers(inbox) && answered == entry.answered + Identities(responses)
      ensures entry.latched && NoReset(inbox) ==> Latched()
      ensures entry.landing && entry.touchdown && command == Landing ==> landTouchdown
      ensures Explained(inbox, responses) && Taken(inbox, s, entry.accepted)
    {
      assert inbox[..|inbox|] == inbox;
    }

    ghost predicate NoReset(inbox: seq<Request>) {
      forall i :: 0 <= i < |inbox| ==> !inbox[i].Reset?
    }

    /** Every OK among these answers a request that needed no execution. */
    ghost predicate Explained(inbox: seq<Request>, responses: seq<Response>) {
      forall k :: 0 <= k < |responses| && responses[k].Ok? ==> AskedAtOnce(inbox, responses[k].id)
    }

    lemma ExplainedMore(inbox: seq<Request>, i: nat, responses: seq<Response>, more: seq<Response>, before: int)
      requires i < |inbox| && Explained(inbox, responses) && AnswersOne(inbox[i], more, before)
      ensures Explained(inbox, responses + more)
    {
    }

    /** A landing goes on untouched, or was stopped, or was stopped and then reset. */
    ghost predicate StillLanding(touchdown: bool)
      reads this
    {
      (command == Landing && landTouchdown == touchdown) || Latched() || command == Resetting
    }

    /**
     The unpowered phase of a landing starts at the first contact near the ground and lasts as long as the
     command.
     */
    method Touch(s: Sample)
      requires Valid()
      modifies this`landTouchdown
      ensures Valid()
      ensures landTouchdown == (old(landTouchdown) || (command == Landing && Abs(s.pose.z - origin.z) <= ALT_TOL
              && s.groundContact))
    {
      hide Balanced;
      hide AllSettled;
      hide Span;
      if command == Landing && !landTouchdown && Abs(s.pose.z - origin.z) <= ALT_TOL && s.groundContact {
        landTouchdown := true;
      }
    }

    method Remember(s: Sample)
      requires Valid() && s.now >= 0.0
      modifies this`previous, this`previousTime
      ensures Valid() && previousTime == s.now && previous == s.pose
    {
      hide Balanced;
      hide AllSettled;
      hide Span;
      previous, previousTime := s.pose, s.now;
    }

    /** The mean velocity since the last sample. */
    function MotionTo(s: Sample): Motion
      requires s.now > previousTime
      reads this`previous, this`previousTime
    {
      var dt := s.now - previousTime;
      Motion(dt, (s.pose.x - previous.x) / dt, (s.pose.y - previous.y) / dt, (s.pose.z - previous.z) / dt)
    }

    lemma MotionIs(s: Sample)
      requires s.now > previousTime
      ensures var dt := s.now - previousTime;
              MotionTo(s) ==
              Motion(dt, (s.pose.x - previous.x) / dt, (s.pose.y - previous.y) / dt, (s.pose.z - previous.z) / dt)
    {
    }

    /** The sample was processed: the history grew by it. */
    ghost predicate Recorded(before: seq<Processed>, s: Sample, v: Motion)
      reads this`history
    {
      && |history| == |before| + 1 && history[..|before|] == before && history[|before|].sample == s
      && history[|before|].motion == v
    }

    /** The active command is within its time limit. */
    predicate InTime(s: Sample)
      reads this`command, this`actionStart
    {
      s.now - actionStart <= Limit(command)
    }

    /** The part of a step after the messages: fail-safe checks, then the active command, then the motors. */
    method Act(s: Sample, v: Motion) returns (responses: seq<Response>, motors: Motors)
      requires Valid() && s.now >= 0.0
      modifies this`airborne, this`failsafeLatched, this`command, this`activeId, this`stableSince, this`answered,
               this`settled,
               this`history, this`settling, this`landTouchdown, clock
      ensures Valid() && answered == old(answered) + Identities(responses)
      ensures Recorded(old(history), s, v)
      ensures command != Idle ==> command == old(command) && InTime(s)
      ensures old(Latched()) ==> Latched()
      ensures Concluded(responses, old(activeId), old(settled)) && Closes(old(Now()), Now(), responses)
      ensures motors == Controlled ==> airborne || command == TakingOff
      ensures command == Landing && old(landTouchdown) ==> landTouchdown
      ensures command == Landing && landTouchdown ==> motors == Stopped
      ensures command != Idle && command != Waiting ==> NotDue(s)
    {
      hide Flight.Owing;
      hide Flight.JustSettled;
      hide Flight.Trips;
      hide Flight.Recorded;
      hide Flight.NotDue;
      hide Identities;
      var tripped;
      responses, tripped := Guard(s);
      if tripped {
        NoteNothing(s, v);
        return responses, Stopped;
      }
      IdentitiesOfNone();
      Touch(s);
      var grounded := command == Resetting;
      responses := Serve(s, v);
      motors := Drive(grounded);
    }

    /** Nothing is answered OK, or the active command is, and was settled. */
    ghost predicate Concluded(responses: seq<Response>, id: int, before: seq<Settled>)
      reads this`settled, this`history
    {
      || (settled == before && forall k :: 0 <= k < |responses| ==> responses[k].Err?)
      || (responses == [Ok(id)] && JustSettled(id, before))
    }

    /** Evaluate the active command, if there is one, on a sample that passed the fail-safe checks. */
    method Serve(s: Sample, v: Motion) returns (responses: seq<Response>)
      requires Valid() && s.now >= 0.0
      modifies this`history, this`stableSince, this`settling, this`airborne, this`command, this`activeId,
               this`answered, this`settled, clock
      ensures Valid() && answered == old(answered) + Identities(responses)
      ensures Recorded(old(history), s, v)
      ensures command != Idle ==> command == old(command) && responses == []
      ensures old(command) == Idle ==> airborne == old(airborne)
      ensures Concluded(responses, old(activeId), old(settled)) && Closes(old(Now()), Now(), responses)
      ensures command != Idle && command != Waiting ==> NotDue(s)
    {
      hide Flight.Owing;
      hide Flight.JustSettled;
      hide Flight.NotDue;
      hide Ready;
      hide Identities;
      if command == Idle {
        IdentitiesOfNone();
        NoteNothing(s, v);
        return [];
      }
      responses := Settle(s, v);
    }

    /** Motors: stopped on the ground, during RESET and after a touchdown; controlled otherwise. */
    method Drive(grounded: bool) returns (motors: Motors)
      requires Valid() && (command == Resetting ==> grounded)
      ensures motors == Controlled <==>
                !grounded && (airborne || command != Idle) && !(command == Landing && landTouchdown)
      ensures motors != Unchanged
      ensures motors == Controlled ==> airborne || command == TakingOff
    {
      hide Flight.Accounted;
      hide Flight.Settling;
      hide Flight.Obeying;
      if !grounded && (airborne || command != Idle) && !(command == Landing && landTouchdown) {
        return Controlled;
      }
      return Stopped;
    }

    /** Every OK answers a request that needed no execution, or the command that was just settled. */
    ghost predicate Backed(inbox: seq<Request>, responses: seq<Response>, before: seq<Settled>)
      reads this`settled, this`history
    {
      forall k :: 0 <= k < |responses| && responses[k].Ok? ==>
        AskedAtOnce(inbox, responses[k].id) || JustSettled(responses[k].id, before)
    }

    lemma BackedBoth(inbox: seq<Request>, instant: seq<Response>, later: seq<Response>, id: int, before: seq<Settled>)
      requires Explained(inbox, instant)
      requires Concluded(later, id, before)
      ensures Backed(inbox, instant + later, before)
    {
      hide AskedAtOnce;
      hide Flight.JustSettled;
    }

    lemma NothingBacked(inbox: seq<Request>, s: Sample, done: seq<Settled>, orders: seq<Order>)
      ensures Backed(inbox, [], done)
      ensures orders == accepted ==> Taken(inbox, s, orders)
    {
    }

    /**
     What an OK for an action means: its request had been admitted, and through a stretch of processed samples that
     fills its window, each met the tolerance of that command at the target of that request. A WAIT lasted its time.
     */
    lemma OkIsHeld(e: Settled, k: nat)
      requires Valid() && e in settled && e.first <= k <= e.last
      ensures e.order in accepted && Admitted(e.order, origin) && e.last < |history|
      ensures history[k].executing == Some(e.order)
      ensures Ready(CommandOf(e.order.request), history[k].motion, history[k].sample, TargetOf(e.order, origin), origin)
      ensures var r, settling := e.order.request, history[e.last].sample.now - history[e.first].sample.now;
              && (r.Reset? ==> settling >= RESET_WINDOW)
              && (r.TakeOff? || r.Move? || r.Vertical? || r.Turn? || r.Land? ==> settling >= STOP_WINDOW)
              && (r.Wait? ==> history[e.last].sample.now - e.order.sample.now >= r.value.Or0())
    {
      hide Ready;
      hide TargetOf;
      var i :| 0 <= i < |settled| && settled[i] == e;
      assert settled[i].order in accepted && SettledBy(history, settled[i], origin);
      assert Met(history[k], e.order, origin);
    }

    /** One turn of the control loop. */
    method Step(s: Sample, inbox: seq<Request>) returns (responses: seq<Response>, motors: Motors)
      requires Valid()
      modifies this, clock
      ensures Valid()
      ensures s.now <= old(previousTime) ==> responses == [] && motors == Unchanged
      ensures s.now <= old(previousTime) ==> unchanged(this) && unchanged(clock)
      ensures s.now > old(previousTime) ==>
                previousTime == s.now && previous == s.pose && received == old(received) + Identifiers(inbox)
      ensures answered == old(answered) + Identities(responses)
      ensures s.now > old(previousTime) ==> Recorded(old(history), s, old(MotionTo(s)))
      ensures s.now > old(previousTime) && command != Idle ==> InTime(s)
      ensures s.now > old(previousTime) ==> settled == old(settled) || exists id :: JustSettled(id, old(settled))
      ensures Backed(inbox, responses, old(settled))
      ensures Taken(inbox, s, old(accepted))
      ensures motors == Controlled ==> airborne || command == TakingOff
      ensures old(command) == Landing && old(landTouchdown) && command == Landing ==> landTouchdown
      ensures command == Landing && landTouchdown && s.now > old(previousTime) ==> motors == Stopped
      ensures old(Latched()) && NoReset(inbox) ==> Latched()
      ensures s.now > old(previousTime) && command != Idle && command != Waiting ==> NotDue(s)
    {
      hide Flight.Owing;
      hide Flight.JustSettled;
      hide Flight.NotDue;
      hide Flight.NoReset;
      hide Flight.MotionTo;
      hide Flight.Recorded;
      hide Flight.InTime;
      hide AskedAtOnce;
      hide Identities;
      hide Identifiers;
      IdentitiesOfNone();
      hide Flight.Backed;
      hide Flight.Taken;
      NothingBacked(inbox, s, settled, accepted);
      var dt := s.now - previousTime;
      if dt <= 0.0 {
        return [], Unchanged;
      }
      TimeIsNonNegative();
      var v := Motion(dt, (s.pose.x - previous.x) / dt, (s.pose.y - previous.y) / dt, (s.pose.z - previous.z) / dt);
      MotionIs(s);
      responses, motors := Process(s, inbox, v);
    }

    /** A step whose sample is new: the messages, then the active command, then the motors. */
    method Process(s: Sample, inbox: seq<Request>, v: Motion) returns (responses: seq<Response>, motors: Motors)
      requires Valid() && s.now >= 0.0
      modifies this, clock
      ensures Valid() && previousTime == s.now && previous == s.pose
      ensures received == old(received) + Identifiers(inbox) && answered == old(answered) + Identities(responses)
      ensures Recorded(old(history), s, v) && (command != Idle ==> InTime(s))
      ensures settled == old(settled) || exists id :: JustSettled(id, old(settled))
      ensures Backed(inbox, responses, old(settled)) && Taken(inbox, s, old(accepted))
      ensures motors == Controlled ==> airborne || command == TakingOff
      ensures old(command) == Landing && old(landTouchdown) && command == Landing ==> landTouchdown
      ensures command == Landing && landTouchdown ==> motors == Stopped
      ensures old(Latched()) && NoReset(inbox) ==> Latched()
      ensures command != Idle && command != Waiting ==> NotDue(s)
    {
      hide Flight.Owing;
      hide Flight.JustSettled;
      hide Flight.NotDue;
      hide Flight.NoReset;
      hide Flight.Recorded;
      hide Flight.InTime;
      hide AskedAtOnce;
      hide Identities;
      hide Identifiers;
      hide Flight.Backed;
      hide Flight.Explained;
      hide Flight.Taken;
      var instant := HandleInbox(inbox, s, v);
      ghost var settler := activeId;
      var later;
      later, motors := Act(s, v);
      IdentitiesOfBoth(instant, later);
      BackedBoth(inbox, instant, later, settler, old(settled));
      responses := instant + later;
      Remember(s);
      assert settled == old(settled) || JustSettled(settler, old(settled));
    }

    method NoteNothing(s: Sample, v: Motion)
      requires Valid() && s.now >= 0.0 && command == Idle
      modifies this`history, this`stableSince, this`settling
      ensures Valid() && Recorded(old(history), s, v)
    {
      hide Ready;
      hide Flight.Owing;
      MetNow(s, v);
      Note(s, v, false);
    }

    lemma TimeIsNonNegative()
      requires Valid()
      ensures previousTime >= 0.0
    {
    }
  }

  /** The identifiers of the requests that can be answered. */
  function Identifiers(inbox: seq<Request>): multiset<int> {
    if inbox == [] then multiset{}
    else
      var last := inbox[|inbox| - 1];
      Identifiers(inbox[..|inbox| - 1]) + (if last.id >= 1 then multiset{last.id} else multiset{})
  }
}
