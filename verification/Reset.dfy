/** The per-trial reset: cancel every goal, wait until the robot has been idle for a while, reset the
    simulator once, check where it put the robot, and only then localize and home. */
module Reset {
  import opened Geometry

  const SPAWN_M := 0.15
  const SPAWN_DEG := 5.0
  const AMCL_M := 0.25
  const AMCL_DEG := 5.0
  const STATIONARY_LINEAR := 0.01
  const STATIONARY_ANGULAR := 0.02
  const HOLD := 1.0

  // -------------------------------------------------------------------- poses

  /** A planar pose; yaw is in degrees and may be any real. */
  datatype Pose = Pose(x: real, y: real, yaw: real)

  function Distance2(a: Pose, b: Pose): real { (a.x - b.x) * (a.x - b.x) + (a.y - b.y) * (a.y - b.y) }

  /** The whole turns that bring an angle into [-180, 180). */
  function Turns(angle: real): int { ((angle + 180.0) / 360.0).Floor }

  function DegError(a: Pose, b: Pose): real { Abs(a.yaw - b.yaw - Turns(a.yaw - b.yaw) as real * 360.0) }

  /** How far apart the yaws are after k whole turns. */
  function YawOff(a: Pose, b: Pose, k: int): real { Abs(a.yaw - b.yaw - k as real * 360.0) }

  /** The yaw error is the least over all whole turns, is reached by one, and is at most half a turn. */
  lemma DegErrorIsLeast(a: Pose, b: Pose, k: int)
    ensures DegError(a, b) <= YawOff(a, b, k) && (exists n: int :: DegError(a, b) == YawOff(a, b, n))
    ensures 0.0 <= DegError(a, b) <= 180.0
  {
    var d, n := a.yaw - b.yaw, Turns(a.yaw - b.yaw);
    var q := (d + 180.0) / 360.0;
    assert n as real <= q < n as real + 1.0;
    assert -180.0 <= d - n as real * 360.0 < 180.0;
    if k > n { assert k as real >= n as real + 1.0; }
    if k < n { assert k as real <= n as real - 1.0; }
    assert DegError(a, b) == YawOff(a, b, n);
  }

  /** Within a tolerance; nothing is within a negative one. The distance is compared by its square. */
  predicate Near(a: Pose, b: Pose, tolM: real, tolDeg: real) {
    tolM >= 0.0 && Distance2(a, b) <= tolM * tolM && DegError(a, b) <= tolDeg
  }

  lemma NearItself(a: Pose, tolM: real, tolDeg: real)
    ensures Near(a, a, tolM, tolDeg) <==> tolM >= 0.0 && tolDeg >= 0.0
  {
    assert Turns(0.0) == 0;
  }

  // ------------------------------------------------------------- client and trace

  /** The answer of a client call, which may raise a reset error. */
  datatype Answer<+T> = Got(value: T) | Raised

  datatype Speed = Speed(linear: real, angular: real)

  datatype StateReply = StateReply(ok: bool, stopAsserted: bool)

  /** One client call with its answer. */
  datatype Op =
    | ListActions(names: seq<string>)
    | Cancel(action: string, found: Answer<bool>)
    | Active(action: string, count: Answer<nat>)
    | BaseSpeed(speed: Answer<Speed>)
    | Truth(pose: Answer<Pose>)
    | State(reply: Answer<StateReply>)
    | Seed(at: Pose, amcl: Answer<Option<Pose>>)
    | ClearCostmaps(done: Answer<()>)
    | Home(done: Answer<()>)
    | Sleep(seconds: real)
    | Now(t: real)

  /** A client in an arbitrary world: any answers, any goals starting at any time, and a clock that
      never goes back and advances by at least what is slept. The trace records every call. */
  class Client {
    ghost var trace: seq<Op>
    var clock: real

    constructor ()
      ensures trace == []
    {
      trace := [];
      clock := *;
    }

    method Names() returns (names: seq<string>)
      modifies this
      ensures trace == old(trace) + [ListActions(names)] && clock >= old(clock)
    {
      names := *;
      Record(ListActions(names), 0.0);
    }

    method CancelAllGoals(action: string) returns (found: Answer<bool>)
      modifies this
      ensures trace == old(trace) + [Cancel(action, found)] && clock >= old(clock)
    {
      found := *;
      Record(Cancel(action, found), 0.0);
    }

    method ActiveGoals(action: string) returns (count: Answer<nat>)
      modifies this
      ensures trace == old(trace) + [Active(action, count)] && clock >= old(clock)
    {
      count := *;
      Record(Active(action, count), 0.0);
    }

    method ReadSpeed() returns (speed: Answer<Speed>)
      modifies this
      ensures trace == old(trace) + [BaseSpeed(speed)] && clock >= old(clock)
    {
      speed := *;
      Record(BaseSpeed(speed), 0.0);
    }

    method TruthPose() returns (pose: Answer<Pose>)
      modifies this
      ensures trace == old(trace) + [Truth(pose)] && clock >= old(clock)
    {
      pose := *;
      Record(Truth(pose), 0.0);
    }

    method ResetState() returns (reply: Answer<StateReply>)
      modifies this
      ensures trace == old(trace) + [State(reply)] && clock >= old(clock)
    {
      reply := *;
      Record(State(reply), 0.0);
    }

    method SeedLocalization(at: Pose) returns (amcl: Answer<Option<Pose>>)
      modifies this
      ensures trace == old(trace) + [Seed(at, amcl)] && clock >= old(clock)
    {
      amcl := *;
      Record(Seed(at, amcl), 0.0);
    }

    method Clear() returns (done: Answer<()>)
      modifies this
      ensures trace == old(trace) + [ClearCostmaps(done)] && clock >= old(clock)
    {
      done := *;
      Record(ClearCostmaps(done), 0.0);
    }

    method HomeArmAndHead() returns (done: Answer<()>)
      modifies this
      ensures trace == old(trace) + [Home(done)] && clock >= old(clock)
    {
      done := *;
      Record(Home(done), 0.0);
    }

    method SleepFor(seconds: real)
      modifies this
      ensures trace == old(trace) + [Sleep(seconds)] && clock >= old(clock) + seconds && clock >= old(clock)
    {
      Record(Sleep(seconds), seconds);
    }

    method ReadClock() returns (t: real)
      modifies this
      ensures trace == old(trace) + [Now(t)] && clock >= t >= old(clock)
    {
      t := clock;
      Record(Now(t), 0.0);
    }

    method Record(ghost op: Op, atLeast: real)
      modifies this
      ensures trace == old(trace) + [op] && clock >= old(clock) + atLeast && clock >= old(clock)
    {
      trace := trace + [op];
      var more: real := *;
      clock := clock + Max(0.0, atLeast) + Max(0.0, more);
    }
  }

  // --------------------------------------------------------------- trace shapes

  predicate Asks(op: Op, action: string) { op.Active? && op.action == action }

  predicate AsksZero(op: Op, action: string) { Asks(op, action) && op.count == Got(0) }

  /** One sweep over the watched actions, all without an active goal. */
  predicate ZeroSweep(ops: seq<Op>, actions: seq<string>) {
    |ops| == |actions| && forall i :: 0 <= i < |ops| ==> AsksZero(ops[i], actions[i])
  }

  predicate Stationary(s: Speed) { s.linear <= STATIONARY_LINEAR && s.angular <= STATIONARY_ANGULAR }

  predicate Still(op: Op) { op.BaseSpeed? && op.speed.Got? && Stationary(op.speed.value) }

  /** A call that is compatible with an idle robot: nothing active, nothing moving, nothing cancelled. */
  predicate Quiet(op: Op) {
    op.Sleep? || op.Now? || Still(op) || (op.Active? && op.count == Got(0))
  }

  /** From index i on: a passing sample, the clock read after it, and nothing but quiet calls for at least
      hold seconds on that clock, up to the clock read that ends the trace. */
  predicate HeldFrom(ops: seq<Op>, actions: seq<string>, hold: real, i: nat) {
    var n := |actions|;
    && i + n + 1 < |ops|
    && ZeroSweep(ops[i..i + n], actions) && Still(ops[i + n])
    && ops[i + n + 1].Now? && ops[|ops| - 1].Now?
    && ops[|ops| - 1].t - ops[i + n + 1].t >= hold
    && forall k :: i <= k < |ops| ==> Quiet(ops[k])
  }

  predicate IdleHeld(ops: seq<Op>, actions: seq<string>, hold: real) {
    exists i: nat {:trigger HeldFrom(ops, actions, hold, i)} :: i < |ops| && HeldFrom(ops, actions, hold, i)
  }

  /** The call raised. */
  predicate RaisedOp(op: Op) {
    match op
    case Cancel(_, found) => found.Raised?
    case Active(_, count) => count.Raised?
    case BaseSpeed(speed) => speed.Raised?
    case Truth(pose) => pose.Raised?
    case State(reply) => reply.Raised?
    case Seed(_, amcl) => amcl.Raised?
    case ClearCostmaps(done) => done.Raised?
    case Home(done) => done.Raised?
    case _ => false
  }

  predicate Unraised(ops: seq<Op>) { forall k :: 0 <= k < |ops| ==> !RaisedOp(ops[k]) }

  /** The calls end at the first that raised, or none did. */
  predicate StopsAtRaise(ops: seq<Op>, raised: bool) {
    if raised then ops != [] && RaisedOp(ops[|ops| - 1]) && Unraised(ops[..|ops| - 1]) else Unraised(ops)
  }

  lemma StopsLater(a: seq<Op>, b: seq<Op>, raised: bool)
    requires Unraised(a) && StopsAtRaise(b, raised)
    ensures StopsAtRaise(a + b, raised)
  {
    if raised { assert (a + b)[..|a + b| - 1] == a + b[..|b| - 1]; }
  }

  /** A full sweep: every action asked for, in order, and answered. */
  predicate FullSweep(ops: seq<Op>, actions: seq<string>) {
    |ops| == |actions| && forall i :: 0 <= i < |ops| ==> Asks(ops[i], actions[i]) && ops[i].count.Got?
  }

  /** A call that changes the robot or the simulation, other than by cancelling goals. */
  predicate Drastic(op: Op) { op.State? || op.Seed? || op.ClearCostmaps? || op.Home? }

  predicate Harmless(ops: seq<Op>) { forall i :: 0 <= i < |ops| ==> !Drastic(ops[i]) }

  /** How often the trace asks for one action's active goals: once in every sweep. */
  function Asked(ops: seq<Op>, action: string): nat {
    if ops == [] then 0
    else Asked(ops[..|ops| - 1], action) + if Asks(ops[|ops| - 1], action) then 1 else 0
  }

  lemma {:induction false} AskedConcat(a: seq<Op>, b: seq<Op>, action: string)
    ensures Asked(a + b, action) == Asked(a, action) + Asked(b, action)
  {
    if b == [] {
      assert a + b == a;
    } else {
      var n := |b| - 1;
      assert (a + b)[..|a + b| - 1] == a + b[..n];
      AskedConcat(a, b[..n], action);
    }
  }

  predicate Distinct(names: seq<string>) { forall i, j :: 0 <= i < j < |names| ==> names[i] != names[j] }

  // ------------------------------------------------------------------- waiting

  datatype Error =
    | ClientRaised
    | StillActive
    | StillMoving
    | BecameActive
    | StateFailed(restartNeeded: bool)
    | OffSpawn(afterSettle: bool)
    | NoAmcl
    | AmclOff
    | StartedDuring
    | OffReference

  datatype Result<+T> = Ok(value: T) | Err(error: Error)

  /** The watched actions with an active goal, in order. */
  method ActiveActions(client: Client, actions: seq<string>) returns (active: Answer<seq<string>>, ghost ops: seq<Op>)
    requires Distinct(actions)
    modifies client
    ensures actions != [] ==> Asked(ops, actions[0]) == 1
    ensures client.trace == old(client.trace) + ops && client.clock >= old(client.clock) && Harmless(ops)
    ensures active == Got([]) <==> ZeroSweep(ops, actions)
    ensures StopsAtRaise(ops, active.Raised?) && (active.Got? ==> FullSweep(ops, actions))
  {
    var found: seq<string> := [];
    ops := [];
    for i := 0 to |actions|
      invariant client.trace == old(client.trace) + ops && client.clock >= old(client.clock)
      invariant Swept(ops, actions, i, found == []) && AllGot(ops)
    {
      var count := client.ActiveGoals(actions[i]);
      SweptNext(ops, actions, i, found == [], count);
      ghost var before := ops;
      ops := ops + [Active(actions[i], count)];
      SweptSoFar(ops, actions, i + 1, found == [] && count == Got(0));
      if count.Raised? {
        assert ops[..|ops| - 1] == before;
        return Raised, ops;
      }
      if count.value != 0 { found := found + [actions[i]]; }
    }
    SweptSoFar(ops, actions, |actions|, found == []);
    active := Got(found);
  }

  /** The first i actions have been asked for, and none tells whether all answers were zero. */
  predicate Swept(ops: seq<Op>, actions: seq<string>, i: nat, none: bool) {
    && |ops| == i <= |actions| && (forall k :: 0 <= k < i ==> Asks(ops[k], actions[k]))
    && (none <==> forall k :: 0 <= k < i ==> AsksZero(ops[k], actions[k]))
    && (actions != [] ==> Asked(ops, actions[0]) == if i == 0 then 0 else 1)
  }

  predicate AllGot(ops: seq<Op>) { forall k :: 0 <= k < |ops| ==> ops[k].Active? && ops[k].count.Got? }

  lemma SweptNext(ops: seq<Op>, actions: seq<string>, i: nat, none: bool, count: Answer<nat>)
    requires Distinct(actions) && i < |actions| && Swept(ops, actions, i, none)
    ensures Swept(ops + [Active(actions[i], count)], actions, i + 1, none && count == Got(0))
  {
    var op := Active(actions[i], count);
    var more := ops + [op];
    assert more[..i] == ops && more[i] == op && forall k :: 0 <= k < i ==> more[k] == ops[k];
    assert AsksZero(op, actions[i]) <==> count == Got(0);
  }

  lemma SweptSoFar(ops: seq<Op>, actions: seq<string>, i: nat, none: bool)
    requires Swept(ops, actions, i, none)
    ensures Harmless(ops) && (i == |actions| ==> (ZeroSweep(ops, actions) <==> none)) && (!none ==> !ZeroSweep(ops, actions))
    ensures 0 < i ==> Asked(ops, actions[0]) == 1
  {
  }

  /** One sample: no active goal and the base stationary. Goals that are still active are cancelled
      again, and the speed is read only if there are none. */
  method IsIdle(client: Client, actions: seq<string>) returns (idle: Answer<bool>, ghost ops: seq<Op>)
    requires Distinct(actions)
    modifies client
    ensures actions != [] ==> Asked(ops, actions[0]) == 1
    ensures client.trace == old(client.trace) + ops && client.clock >= old(client.clock) && Harmless(ops)
    ensures idle == Got(true) ==> Passes(ops, actions)
    ensures StopsAtRaise(ops, idle.Raised?)
    ensures idle == Got(false) ==> |ops| > |actions| && !Passes(ops[..|actions| + 1], actions)
  {
    var active;
    active, ops := ActiveActions(client, actions);
    if active.Raised? { return Raised, ops; }
    if active.value != [] {
      var raised; ghost var cancels;
      raised, cancels := CancelAgain(client, active.value);
      if actions != [] { AskedConcat(ops, cancels, actions[0]); NeverAsked(cancels, actions[0]); }
      StopsLater(ops, cancels, raised);
      NotPassing(ops, cancels, actions);
      return if raised then Raised else Got(false), ops + cancels;
    }
    var speed := client.ReadSpeed();
    SampleIs(ops, BaseSpeed(speed), actions);
    assert (ops + [BaseSpeed(speed)])[..|ops|] == ops;
    ops := ops + [BaseSpeed(speed)];
    if speed.Raised? { return Raised, ops; }
    assert ops[..|actions| + 1] == ops;
    idle := Got(Stationary(speed.value));
  }

  lemma NotPassing(sweep: seq<Op>, more: seq<Op>, actions: seq<string>)
    requires |sweep| == |actions| && !ZeroSweep(sweep, actions)
    ensures |more| > 0 ==> !Passes((sweep + more)[..|actions| + 1], actions)
  {
    if more != [] { assert (sweep + more)[..|actions| + 1][..|actions|] == sweep; }
  }

  predicate OnlyCancels(ops: seq<Op>) { forall k :: 0 <= k < |ops| ==> ops[k].Cancel? }

  /** Cancels the goals that are still active once more. */
  method CancelAgain(client: Client, active: seq<string>) returns (raised: bool, ghost ops: seq<Op>)
    modifies client
    ensures client.trace == old(client.trace) + ops && client.clock >= old(client.clock) && OnlyCancels(ops)
    ensures StopsAtRaise(ops, raised) && (active != [] ==> ops != [])
  {
    ops := [];
    for i := 0 to |active|
      invariant client.trace == old(client.trace) + ops && client.clock >= old(client.clock) && OnlyCancels(ops)
      invariant Unraised(ops) && |ops| == i
    {
      var found := client.CancelAllGoals(active[i]);
      assert (ops + [Cancel(active[i], found)])[..|ops|] == ops;
      ops := ops + [Cancel(active[i], found)];
      if found.Raised? { return true, ops; }
    }
    raised := false;
  }

  lemma {:induction false} NeverAsked(ops: seq<Op>, action: string)
    requires OnlyCancels(ops)
    ensures Asked(ops, action) == 0
  {
    if ops != [] { NeverAsked(ops[..|ops| - 1], action); }
  }

  /** A sweep of zeros and one stationary speed make a passing sample; the speed asks for no goals. */
  lemma SampleIs(sweep: seq<Op>, op: Op, actions: seq<string>)
    requires op.BaseSpeed? && ZeroSweep(sweep, actions)
    ensures Still(op) ==> Passes(sweep + [op], actions)
    ensures actions != [] ==> Asked(sweep + [op], actions[0]) == Asked(sweep, actions[0])
  {
    var ops := sweep + [op];
    assert ops[..|sweep|] == sweep;
    assert forall k :: 0 <= k < |sweep| ==> AsksZero(sweep[k], actions[k]);
  }

  function Ceil(x: real): int { -((-x).Floor) }

  /** The most samples a wait can take. */
  function MaxChecks(timeout: real, poll: real): int
    requires poll > 0.0
  {
    var n := Ceil(timeout / poll) + 1;
    if n < 1 then 1 else n
  }

  /** That is one sample, and one more for each poll interval that begins before the timeout. */
  lemma MaxChecksIs(timeout: real, poll: real)
    requires poll > 0.0
    ensures timeout / poll <= 0.0 ==> MaxChecks(timeout, poll) == 1
    ensures timeout / poll > 0.0 ==> timeout / poll + 1.0 <= MaxChecks(timeout, poll) as real < timeout / poll + 2.0
  {
  }

  /** The least time that passes while sleeping after each of so many samples. */
  function Elapsed(checks: nat, poll: real): real { if checks == 0 then 0.0 else Elapsed(checks - 1, poll) + poll }

  lemma {:induction false} ElapsedIs(checks: nat, poll: real)
    ensures Elapsed(checks, poll) == checks as real * poll
  {
    if checks > 0 { ElapsedIs(checks - 1, poll); }
  }

  lemma ChecksLeft(timeout: real, poll: real, checks: nat)
    requires poll > 0.0 && (checks > 0 ==> Elapsed(checks - 1, poll) < timeout)
    ensures checks < MaxChecks(timeout, poll)
  {
    if checks > 0 {
      ElapsedIs(checks - 1, poll);
      var q := timeout / poll;
      assert q * poll == timeout;
      assert (checks - 1) as real < q;
      assert -q < (1 - checks) as real;
      var n: int := checks;
      assert (-q).Floor <= -n;
    }
  }

  predicate Passes(sample: seq<Op>, actions: seq<string>) {
    && |sample| == |actions| + 1 && ZeroSweep(sample[..|actions|], actions) && Still(sample[|actions|])
    && forall k :: 0 <= k < |sample| ==> Quiet(sample[k])
  }

  // The wait, turn by turn.

  /** One turn of the wait: its calls; and, if its sample passed, when the window it starts would start, and the clock
      reading it was judged by. */
  datatype Turn = Turn(ops: seq<Op>, start: real, held: Option<real>)

  /** The turn is held exactly if its sample passes. It is judged by the reading after the sample; the first of a
      window by the next one, since that reading starts the window. */
  predicate Judged(t: Turn, actions: seq<string>, first: bool) {
    var n := |actions| + 1;
    && |t.ops| >= n && (t.held.Some? <==> Passes(t.ops[..n], actions))
    && (t.held.Some? ==>
          if first then |t.ops| > n + 1 && t.ops[n] == Now(t.start) && t.ops[n + 1] == Now(t.held.value) && t.start <= t.held.value
          else |t.ops| > n && t.ops[n] == Now(t.held.value))
  }

  /** A turn changes nothing and raises nothing, asks for the first action once, and is quiet if it is held. */
  predicate Calm(t: Turn, actions: seq<string>) {
    && Harmless(t.ops) && Unraised(t.ops) && (actions != [] ==> Asked(t.ops, actions[0]) == 1)
    && (t.held.Some? ==> forall k :: 0 <= k < |t.ops| ==> Quiet(t.ops[k]))
  }

  predicate TurnRight(t: Turn, actions: seq<string>, first: bool) { Judged(t, actions, first) && Calm(t, actions) }

  /** What one turn does to the window: it starts, goes on or ends. */
  function SinceAfter(since: Option<real>, t: Turn): Option<real> {
    if t.held.None? then None else if since.Some? then since else Some(t.start)
  }

  /** Since when all turns are held, if the last is. */
  function Since(turns: seq<Turn>): Option<real> {
    if turns == [] then None else SinceAfter(Since(turns[..|turns| - 1]), turns[|turns| - 1])
  }

  function Calls(turns: seq<Turn>): seq<Op> {
    if turns == [] then [] else Calls(turns[..|turns| - 1]) + turns[|turns| - 1].ops
  }

  /** One more turn is judged right, and later than the window started. */
  predicate TurnFollows(since: Option<real>, t: Turn, actions: seq<string>) {
    TurnRight(t, actions, since.None?) && (t.held.Some? && since.Some? ==> since.value <= t.held.value)
  }

  /** The turn was not long enough after the start of the window. */
  predicate TooShort(t: Turn, since: Option<real>, hold: real) {
    t.held.Some? && since.Some? ==> t.held.value - since.value < hold
  }

  /** Turns as a wait takes them: each judged right, and none long enough after the start of its window - but for the last,
      if that ends the wait. */
  predicate Taken(turns: seq<Turn>, actions: seq<string>, hold: real, ended: bool) {
    if turns == [] then !ended
    else
      var before, t := turns[..|turns| - 1], turns[|turns| - 1];
      && Taken(before, actions, hold, false) && TurnFollows(Since(before), t, actions)
      && if ended then LongEnough(t, SinceAfter(Since(before), t), hold) else TooShort(t, SinceAfter(Since(before), t), hold)
  }

  /** The turn is held, and was long enough after the start of the window; the reading that says so is its last call. */
  predicate LongEnough(t: Turn, since: Option<real>, hold: real) {
    && t.held.Some? && since.Some? && t.held.value - since.value >= hold
    && t.ops != [] && t.ops[|t.ops| - 1] == Now(t.held.value)
  }

  lemma TakenNext(turns: seq<Turn>, t: Turn, actions: seq<string>, hold: real)
    ensures Since(turns + [t]) == SinceAfter(Since(turns), t) && Calls(turns + [t]) == Calls(turns) + t.ops
    ensures Taken(turns + [t], actions, hold, false) <==>
      Taken(turns, actions, hold, false) && TurnFollows(Since(turns), t, actions) && TooShort(t, SinceAfter(Since(turns), t), hold)
    ensures Taken(turns + [t], actions, hold, true) <==>
      Taken(turns, actions, hold, false) && TurnFollows(Since(turns), t, actions) && LongEnough(t, SinceAfter(Since(turns), t), hold)
  {
    assert (turns + [t])[..|turns|] == turns;
  }

  // An unbroken run of passing samples of the hold time ends the wait.

  /** Turns i to j - 1 are all held. */
  predicate AllHeld(turns: seq<Turn>, i: nat, j: nat) {
    j <= |turns| && forall k :: i <= k < j ==> turns[k].held.Some?
  }

  /** No unbroken run of held turns spans the hold time. */
  predicate NoLongWindow(turns: seq<Turn>, hold: real) {
    forall i: nat, j: nat :: i <= j < |turns| && AllHeld(turns, i, j + 1) ==> turns[j].held.value - turns[i].held.value < hold
  }

  /** The window goes back at least as far as any unbroken run of held turns up to now. */
  lemma {:induction false} SinceAll(turns: seq<Turn>, actions: seq<string>, hold: real, i: nat)
    requires Taken(turns, actions, hold, false) && i < |turns| && AllHeld(turns, i, |turns|)
    ensures Since(turns).Some? && Since(turns).value <= turns[i].held.value
  {
    var n := |turns| - 1;
    assert turns[n].held.Some?;
    if i < n { SinceAll(turns[..n], actions, hold, i); }
  }

  lemma {:induction false} TakenBefore(turns: seq<Turn>, actions: seq<string>, hold: real, j: nat)
    requires Taken(turns, actions, hold, false) && j <= |turns|
    ensures Taken(turns[..j], actions, hold, false)
    decreases |turns| - j
  {
    if j < |turns| {
      TakenBefore(turns, actions, hold, j + 1);
      assert turns[..j + 1][..j] == turns[..j];
    } else {
      assert turns[..j] == turns;
    }
  }

  lemma LongRunEnds(turns: seq<Turn>, actions: seq<string>, hold: real)
    requires Taken(turns, actions, hold, false)
    ensures NoLongWindow(turns, hold)
  {
    forall i: nat, j: nat | i <= j < |turns| && AllHeld(turns, i, j + 1)
      ensures turns[j].held.value - turns[i].held.value < hold
    {
      TakenBefore(turns, actions, hold, j + 1);
      SinceAll(turns[..j + 1], actions, hold, i);
    }
  }

  // What the calls of the turns amount to.

  lemma {:induction false} CallsAreCalm(turns: seq<Turn>, actions: seq<string>, hold: real, ended: bool)
    requires Taken(turns, actions, hold, ended)
    ensures Harmless(Calls(turns)) && Unraised(Calls(turns)) && (actions != [] ==> Asked(Calls(turns), actions[0]) == |turns|)
  {
    if turns != [] {
      var n := |turns| - 1;
      CallsAreCalm(turns[..n], actions, hold, false);
      if actions != [] { AskedConcat(Calls(turns[..n]), turns[n].ops, actions[0]); }
    }
  }

  /** Where the window starts among the calls. */
  predicate WindowAt(ops: seq<Op>, actions: seq<string>, since: real, i: nat) {
    var n := |actions|;
    && i + n + 1 < |ops| && ops[i + n + 1] == Now(since) && ZeroSweep(ops[i..i + n], actions) && Still(ops[i + n])
    && forall k :: i <= k < |ops| ==> Quiet(ops[k])
  }

  lemma WindowMore(ops: seq<Op>, more: seq<Op>, actions: seq<string>, since: real, i: nat)
    requires WindowAt(ops, actions, since, i) && forall k :: 0 <= k < |more| ==> Quiet(more[k])
    ensures WindowAt(ops + more, actions, since, i)
  {
    var all, n := ops + more, |actions|;
    assert all[i..i + n] == ops[i..i + n];
    forall k | i <= k < |all| ensures Quiet(all[k]) {
      if |ops| <= k { assert all[k] == more[k - |ops|]; }
    }
  }

  lemma WindowStarts(ops: seq<Op>, t: Turn, actions: seq<string>)
    requires TurnRight(t, actions, true) && t.held.Some?
    ensures WindowAt(ops + t.ops, actions, t.start, |ops|)
  {
    var all, n := ops + t.ops, |actions|;
    assert all[|ops|..|ops| + n] == t.ops[..n + 1][..n];
    assert all[|ops| + n] == t.ops[..n + 1][n];
    forall k | |ops| <= k < |all| ensures Quiet(all[k]) { assert all[k] == t.ops[k - |ops|]; }
  }

  lemma {:induction false} Window(turns: seq<Turn>, actions: seq<string>, hold: real) returns (i: nat)
    requires Taken(turns, actions, hold, false) && Since(turns).Some?
    ensures WindowAt(Calls(turns), actions, Since(turns).value, i)
  {
    var n := |turns| - 1;
    var before, t := turns[..n], turns[n];
    if Since(before).Some? {
      i := Window(before, actions, hold);
      WindowMore(Calls(before), t.ops, actions, Since(before).value, i);
    } else {
      i := |Calls(before)|;
      WindowStarts(Calls(before), t, actions);
    }
  }

  /** A last turn that is judged long enough leaves the robot idle for the hold time. */
  lemma IdleAtLast(turns: seq<Turn>, actions: seq<string>, hold: real, started: real)
    requires Taken(turns, actions, hold, true)
    ensures IdleHeld([Now(started)] + Calls(turns), actions, hold)
  {
    var n := |turns| - 1;
    var i := WindowAtLast(turns[..n], turns[n], actions, hold);
    HeldAtLast(Calls(turns[..n]), turns[n], actions, SinceAfter(Since(turns[..n]), turns[n]).value, hold, i, started);
  }

  lemma HeldAtLast(calls: seq<Op>, t: Turn, actions: seq<string>, since: real, hold: real, i: nat, started: real)
    requires WindowAt(calls + t.ops, actions, since, i)
    requires t.ops != [] && t.held.Some? && t.ops[|t.ops| - 1] == Now(t.held.value) && t.held.value - since >= hold
    ensures IdleHeld([Now(started)] + (calls + t.ops), actions, hold)
  {
    var all := calls + t.ops;
    assert all[|all| - 1] == t.ops[|t.ops| - 1];
    HeldInside(all, actions, since, hold, i, started);
  }

  lemma WindowAtLast(turns: seq<Turn>, t: Turn, actions: seq<string>, hold: real) returns (i: nat)
    requires Taken(turns, actions, hold, false) && TurnFollows(Since(turns), t, actions) && t.held.Some?
    ensures WindowAt(Calls(turns) + t.ops, actions, SinceAfter(Since(turns), t).value, i)
  {
    if Since(turns).Some? {
      i := Window(turns, actions, hold);
      WindowMore(Calls(turns), t.ops, actions, Since(turns).value, i);
    } else {
      i := |Calls(turns)|;
      WindowStarts(Calls(turns), t, actions);
    }
  }

  lemma HeldInside(calls: seq<Op>, actions: seq<string>, since: real, hold: real, i: nat, started: real)
    requires WindowAt(calls, actions, since, i)
    requires calls[|calls| - 1].Now? && calls[|calls| - 1].t - since >= hold
    ensures IdleHeld([Now(started)] + calls, actions, hold)
  {
    var all, n := [Now(started)] + calls, |actions|;
    assert all[i + 1..i + 1 + n] == calls[i..i + n];
    forall k | i + 1 <= k < |all| ensures Quiet(all[k]) { assert all[k] == calls[k - 1]; }
    assert HeldFrom(all, actions, hold, i + 1);
  }

  // ------------------------------------------------------------------ the calls

  /** One turn of the wait: samples, and decides whether samples have now passed for hold seconds. */
  method PollOnce(client: Client, actions: seq<string>, hold: real, heldSince: Option<real>)
    returns (done: Answer<bool>, since: Option<real>, ghost turn: Turn)
    requires Distinct(actions) && (heldSince.Some? ==> heldSince.value <= client.clock)
    modifies client
    ensures client.trace == old(client.trace) + turn.ops && client.clock >= old(client.clock) && Harmless(turn.ops)
    ensures actions != [] ==> Asked(turn.ops, actions[0]) == 1
    ensures StopsAtRaise(turn.ops, done.Raised?)
    ensures done.Got? ==> TurnFollows(heldSince, turn, actions) && since == SinceAfter(heldSince, turn)
    ensures since.Some? ==> since.value <= client.clock
    ensures done == Got(false) ==> TooShort(turn, since, hold)
    ensures done == Got(true) ==> LongEnough(turn, since, hold)
  {
    var idle; ghost var sample;
    idle, sample := IsIdle(client, actions);
    since, turn := None, Turn(sample, 0.0, None);
    if idle.Raised? { return Raised, None, turn; }
    if !idle.value { return Got(false), None, turn; }
    var judged; ghost var readings;
    done, since, judged, readings := Passed(client, hold, heldSince);
    turn := Turn(sample + readings, since.value, Some(judged));
    HeldTurn(sample, readings, actions, heldSince, since.value, judged);
    Regroup(old(client.trace), sample, readings);
  }

  lemma Regroup(a: seq<Op>, b: seq<Op>, c: seq<Op>)
    ensures a + b + c == a + (b + c)
  {
  }

  /** After a passing sample: the window starts now or goes on, and may be long enough. */
  method Passed(client: Client, hold: real, heldSince: Option<real>)
    returns (done: Answer<bool>, since: Option<real>, judged: real, ghost readings: seq<Op>)
    requires heldSince.Some? ==> heldSince.value <= client.clock
    modifies client
    ensures client.trace == old(client.trace) + readings && client.clock >= old(client.clock)
    ensures since.Some? && since.value <= judged && since.value <= client.clock && (heldSince.Some? ==> since == heldSince)
    ensures readings == if heldSince.None? then [Now(since.value), Now(judged)] else [Now(judged)]
    ensures done == Got(judged - since.value >= hold)
  {
    since := heldSince;
    readings := [];
    if heldSince.None? {
      var t := client.ReadClock();
      since, readings := Some(t), [Now(t)];
    }
    judged := client.ReadClock();
    readings := readings + [Now(judged)];
    done := Got(judged - since.value >= hold);
  }

  lemma HeldTurn(sample: seq<Op>, readings: seq<Op>, actions: seq<string>, since: Option<real>, start: real, judged: real)
    requires start <= judged && (since.Some? ==> since.value == start)
    requires readings == if since.None? then [Now(start), Now(judged)] else [Now(judged)]
    ensures var t := Turn(sample + readings, start, Some(judged));
      && t.ops[|t.ops| - 1] == Now(judged) && SinceAfter(since, t) == Some(start)
      && (Harmless(sample) ==> Harmless(t.ops)) && (Unraised(sample) ==> Unraised(t.ops))
      && (actions != [] ==> Asked(t.ops, actions[0]) == Asked(sample, actions[0]))
    ensures Passes(sample, actions) && Harmless(sample) && Unraised(sample)
            && (actions != [] ==> Asked(sample, actions[0]) == 1) ==>
      TurnFollows(since, Turn(sample + readings, start, Some(judged)), actions)
  {
    MoreReadings(sample, readings, actions);
    if |sample| == |actions| + 1 { assert (sample + readings)[..|actions| + 1] == sample; }
  }

  /** Clock readings and sleeps after a turn's calls change nothing else. */
  lemma MoreReadings(ops: seq<Op>, more: seq<Op>, actions: seq<string>)
    requires forall k :: 0 <= k < |more| ==> more[k].Now? || more[k].Sleep?
    ensures Harmless(ops) ==> Harmless(ops + more)
    ensures Unraised(ops) ==> Unraised(ops + more)
    ensures actions != [] ==> Asked(ops + more, actions[0]) == Asked(ops, actions[0])
    ensures (forall k :: 0 <= k < |ops| ==> Quiet(ops[k])) ==> forall k :: 0 <= k < |ops + more| ==> Quiet((ops + more)[k])
  {
    if actions != [] {
      AskedConcat(ops, more, actions[0]);
      NotAsked(more, actions[0]);
    }
  }

  lemma {:induction false} NotAsked(ops: seq<Op>, action: string)
    requires forall k :: 0 <= k < |ops| ==> !ops[k].Active?
    ensures Asked(ops, action) == 0
  {
    if ops != [] { NotAsked(ops[..|ops| - 1], action); }
  }

  /** A turn remains right with the pause after it. */
  lemma PausedTurn(turn: Turn, pause: seq<Op>, since: Option<real>, actions: seq<string>)
    requires forall k :: 0 <= k < |pause| ==> pause[k].Now? || pause[k].Sleep?
    ensures TurnFollows(since, turn, actions) ==> TurnFollows(since, Turn(turn.ops + pause, turn.start, turn.held), actions)
  {
    MoreReadings(turn.ops, pause, actions);
    if |turn.ops| >= |actions| + 1 { assert (turn.ops + pause)[..|actions| + 1] == turn.ops[..|actions| + 1]; }
  }

  /** Sleeps for one poll unless the deadline has passed. */
  method Pause(client: Client, deadline: real, poll: real) returns (expired: bool, ghost pause: seq<Op>)
    requires poll > 0.0
    modifies client
    ensures client.trace == old(client.trace) + pause && (forall k :: 0 <= k < |pause| ==> pause[k].Now? || pause[k].Sleep?)
    ensures client.clock >= old(client.clock)
    ensures expired ==> |pause| == 1 && pause[0].Now? && pause[0].t >= deadline
    ensures !expired ==> old(client.clock) < deadline && client.clock >= old(client.clock) + poll
  {
    var now := client.ReadClock();
    pause := [Now(now)];
    if now >= deadline { return true, pause; }
    client.SleepFor(poll);
    return false, pause + [Sleep(poll)];
  }

  /** Why the wait failed, asked once more. */
  method NotIdle(client: Client, actions: seq<string>) returns (error: Error, ghost sweep: seq<Op>)
    requires Distinct(actions)
    modifies client
    ensures actions != [] ==> Asked(sweep, actions[0]) == 1
    ensures client.trace == old(client.trace) + sweep && Harmless(sweep) && SweepSays(sweep, actions, error)
  {
    var active;
    active, sweep := ActiveActions(client, actions);
    error := if active.Raised? then ClientRaised else if active.value != [] then StillActive else StillMoving;
  }

  // ------------------------------------------------------------------- the wait

  /** The calls of a wait are a clock reading and those of its turns, but for the last so many. */
  predicate MadeOf(ops: seq<Op>, turns: seq<Turn>, last: nat) {
    last < |ops| && ops[0].Now? && ops[1..|ops| - last] == Calls(turns)
  }

  /** What a wait that failed ends with: the call that raised; or, right after a clock reading past the timeout, a sweep
      that found a goal or did not. */
  predicate WaitFailed(ops: seq<Op>, actions: seq<string>, timeout: real, e: Error) {
    var n := |actions|;
    match e
    case ClientRaised => StopsAtRaise(ops, true)
    case StillActive => PastTimeout(ops, n, timeout) && FullSweep(ops[|ops| - n..], actions) && !ZeroSweep(ops[|ops| - n..], actions)
    case StillMoving => PastTimeout(ops, n, timeout) && ZeroSweep(ops[|ops| - n..], actions)
    case _ => false
  }

  predicate PastTimeout(ops: seq<Op>, n: nat, timeout: real) {
    && n < |ops| && Unraised(ops) && ops[0].Now? && ops[|ops| - n - 1].Now?
    && ops[|ops| - n - 1].t >= ops[0].t + timeout
  }

  /** A wait succeeds after an idle window of the hold time, at the first turn that is long enough. It fails as
      WaitFailed says; and unless the client raised, it consists of turns that were judged right and not long
      enough, so that no unbroken run of passing samples was as long as the hold time. */
  predicate WaitEnded(r: Result<()>, ops: seq<Op>, turns: seq<Turn>, actions: seq<string>, timeout: real, hold: real) {
    match r
    case Ok(_) => IdleHeld(ops, actions, hold) && Unraised(ops) && MadeOf(ops, turns, 0) && Taken(turns, actions, hold, true)
    case Err(e) =>
      && WaitFailed(ops, actions, timeout, e)
      && (e != ClientRaised ==>
            MadeOf(ops, turns, |actions|) && Taken(turns, actions, hold, false) && NoLongWindow(turns, hold))
  }

  /** So many samples were taken, with a pause after each and the last before the timeout. */
  predicate OnTime(checks: nat, elapsed: real, timeout: real, poll: real) {
    elapsed >= Elapsed(checks, poll) && (checks > 0 ==> Elapsed(checks - 1, poll) < timeout)
  }

  lemma OneCheckMore(checks: nat, elapsed: real, timeout: real, poll: real)
    requires poll > 0.0
    ensures OnTime(checks, elapsed, timeout, poll) ==> checks < MaxChecks(timeout, poll)
  {
    if OnTime(checks, elapsed, timeout, poll) { ChecksLeft(timeout, poll, checks); }
  }

  lemma OnTimeNext(checks: nat, before: real, after: real, timeout: real, poll: real)
    ensures OnTime(checks, before, timeout, poll) && before < timeout && after >= before + poll ==>
      OnTime(checks + 1, after, timeout, poll)
  {
  }

  /** Polls until samples have passed for hold seconds without a failing one in between. Every sample
      asks for the first action once, so it takes at most MaxChecks samples; a failure asks once more
      what is wrong. Unless the client raises, it does not fail before the timeout, nor after an unbroken run of
      passing samples of the hold time: such a run ends it. */
  method WaitUntilIdle(client: Client, actions: seq<string>, timeout: real, poll: real, hold: real)
    returns (r: Result<()>, ghost ops: seq<Op>, ghost turns: seq<Turn>)
    requires poll > 0.0 && Distinct(actions)
    modifies client
    ensures client.trace == old(client.trace) + ops && Harmless(ops)
    ensures WaitEnded(r, ops, turns, actions, timeout, hold)
    ensures actions != [] ==> Asked(ops, actions[0]) <= MaxChecks(timeout, poll) + if r.Ok? then 0 else 1
  {
    var started := client.ReadClock();
    var verdict; ghost var before; ghost var last;
    verdict, before, turns, last := TakeTurns(client, actions, timeout, poll, hold, started);
    TraceIs(old(client.trace), started, Calls(before), last);
    ops := [Now(started)] + Calls(before) + last;
    match verdict
    case Raises =>
      EndedByRaise(before, last, actions, hold, timeout, started, ops);
      return Err(ClientRaised), ops, before;
    case IdleNow =>
      LastCalls(before, turns, last);
      EndedIdle(turns, actions, hold, timeout, started, ops);
      return Ok(()), ops, turns;
    case Expires =>
      LastCalls(before, turns, last);
      var error;
      error, ops := GiveUp(client, actions, hold, timeout, turns, started, ops);
      return Err(error), ops, turns;
  }

  /** Turn after turn, until one raises, is long enough, or ends after the deadline. */
  method TakeTurns(client: Client, actions: seq<string>, timeout: real, poll: real, hold: real, started: real)
    returns (verdict: Verdict, ghost before: seq<Turn>, ghost turns: seq<Turn>, ghost last: seq<Op>)
    requires poll > 0.0 && Distinct(actions) && client.clock >= started
    modifies client
    ensures client.trace == old(client.trace) + Calls(before) + last && !verdict.GoesOn?
    ensures Taken(before, actions, hold, false) && |before| < MaxChecks(timeout, poll)
    ensures Took(verdict, before, turns, last, actions, hold, started + timeout)
  {
    turns := [];
    var heldSince: Option<real> := None;
    while true
      invariant client.trace == old(client.trace) + Calls(turns) && Taken(turns, actions, hold, false)
      invariant heldSince == Since(turns) && (heldSince.Some? ==> heldSince.value <= client.clock)
      invariant OnTime(|turns|, client.clock - started, timeout, poll)
      decreases MaxChecks(timeout, poll) - |turns|
    {
      ghost var began := client.clock - started;
      OneCheckMore(|turns|, began, timeout, poll);
      before := turns;
      verdict, heldSince, turns, last := TakeTurn(client, actions, hold, started + timeout, poll, heldSince, turns);
      if !verdict.GoesOn? { return; }
      Regroup(old(client.trace), Calls(before), last);
      OnTimeNext(|before|, began, client.clock - started, timeout, poll);
    }
  }

  lemma LastCalls(before: seq<Turn>, turns: seq<Turn>, last: seq<Op>)
    requires |turns| == |before| + 1 && turns[..|before|] == before && turns[|before|].ops == last
    ensures Calls(turns) == Calls(before) + last
  {
  }

  /** After the deadline: why the wait failed, asked once more. */
  method GiveUp(client: Client, actions: seq<string>, hold: real, timeout: real, ghost turns: seq<Turn>, ghost started: real,
                ghost ops: seq<Op>) returns (error: Error, ghost after: seq<Op>)
    requires Distinct(actions) && Taken(turns, actions, hold, false) && ops == [Now(started)] + Calls(turns) && turns != []
    requires var last := turns[|turns| - 1].ops; last != [] && last[|last| - 1].Now? && last[|last| - 1].t >= started + timeout
    modifies client
    ensures ops <= after && client.trace == old(client.trace) + after[|ops|..] && Harmless(after)
    ensures WaitEnded(Err(error), after, turns, actions, timeout, hold)
    ensures actions != [] ==> Asked(after, actions[0]) == |turns| + 1
  {
    ghost var sweep;
    error, sweep := NotIdle(client, actions);
    after := ops + sweep;
    GaveUp(turns, sweep, actions, hold, timeout, started, error, after);
  }

  lemma TraceIs(before: seq<Op>, started: real, calls: seq<Op>, last: seq<Op>)
    ensures before + [Now(started)] + calls + last == before + ([Now(started)] + calls + last)
    ensures before + [Now(started)] + calls + last == before + [Now(started)] + (calls + last)
    ensures [Now(started)] + calls + last == [Now(started)] + (calls + last)
  {
  }

  datatype Verdict = Raises | IdleNow | Expires | GoesOn

  /** One turn of the wait, and the pause after it unless it was the last. */
  method TakeTurn(client: Client, actions: seq<string>, hold: real, deadline: real, poll: real, heldSince: Option<real>,
                  ghost turns: seq<Turn>)
    returns (verdict: Verdict, since: Option<real>, ghost more: seq<Turn>, ghost last: seq<Op>)
    requires poll > 0.0 && Distinct(actions) && heldSince == Since(turns) && (heldSince.Some? ==> heldSince.value <= client.clock)
    modifies client
    ensures client.trace == old(client.trace) + last && client.clock >= old(client.clock)
    ensures Took(verdict, turns, more, last, actions, hold, deadline)
    ensures verdict.GoesOn? ==> since == Since(more) && Calls(more) == Calls(turns) + last
    ensures since.Some? ==> since.value <= client.clock
    ensures verdict.GoesOn? ==> old(client.clock) < deadline && client.clock >= old(client.clock) + poll
  {
    var done; ghost var turn;
    done, since, turn := PollOnce(client, actions, hold, heldSince);
    more, last := turns + [turn], turn.ops;
    TakenNext(turns, turn, actions, hold);
    if done.Raised? { return Raises, since, more, last; }
    if done.value { return IdleNow, since, more, last; }
    ghost var pause;
    var expired;
    expired, pause := Pause(client, deadline, poll);
    TurnDone(turns, turn, pause, actions, hold);
    more, last := turns + [Turn(turn.ops + pause, turn.start, turn.held)], turn.ops + pause;
    verdict := if expired then Expires else GoesOn;
  }

  /** What a turn does after those before it: it raises; it ends the wait; or it is one more, and perhaps the last. */
  predicate Took(verdict: Verdict, before: seq<Turn>, turns: seq<Turn>, last: seq<Op>, actions: seq<string>, hold: real,
                 deadline: real)
  {
    && Harmless(last)
    && (verdict.Raises? ==> StopsAtRaise(last, true) && (actions != [] ==> Asked(last, actions[0]) == 1))
    && (!verdict.Raises? ==> |turns| == |before| + 1 && turns[..|before|] == before && turns[|before|].ops == last)
    && (!verdict.Raises? && Taken(before, actions, hold, false) ==> Taken(turns, actions, hold, verdict.IdleNow?))
    && (verdict.Expires? ==> last != [] && last[|last| - 1].Now? && last[|last| - 1].t >= deadline)
  }

  lemma TurnDone(turns: seq<Turn>, turn: Turn, pause: seq<Op>, actions: seq<string>, hold: real)
    requires forall k :: 0 <= k < |pause| ==> pause[k].Now? || pause[k].Sleep?
    ensures var more := turns + [Turn(turn.ops + pause, turn.start, turn.held)];
      && Since(more) == SinceAfter(Since(turns), turn) && Calls(more) == Calls(turns) + (turn.ops + pause)
      && ((Taken(turns, actions, hold, false) && TurnFollows(Since(turns), turn, actions)
           && TooShort(turn, SinceAfter(Since(turns), turn), hold)) ==> Taken(more, actions, hold, false))
  {
    var paused := Turn(turn.ops + pause, turn.start, turn.held);
    PausedTurn(turn, pause, Since(turns), actions);
    TakenNext(turns, paused, actions, hold);
  }

  /** A clock reading, calm calls, and last calls. */
  lemma WholeShape(started: real, calls: seq<Op>, last: seq<Op>, ops: seq<Op>)
    requires ops == [Now(started)] + calls + last
    ensures |ops| == 1 + |calls| + |last| && ops[0] == Now(started)
    ensures ops[1..|ops| - |last|] == calls && ops[|ops| - |last|..] == last && ops[1..] == calls + last
    ensures ops == [Now(started)] + (calls + last)
    ensures calls != [] ==> ops[|calls|] == calls[|calls| - 1]
  {
  }

  lemma WholeCalm(started: real, calls: seq<Op>, last: seq<Op>, raised: bool, ops: seq<Op>)
    requires ops == [Now(started)] + calls + last && Harmless(calls) && Unraised(calls)
    ensures Harmless(last) ==> Harmless(ops)
    ensures StopsAtRaise(last, raised) ==> StopsAtRaise(ops, raised)
  {
    assert Unraised([Now(started)] + calls);
    if StopsAtRaise(last, raised) { StopsLater([Now(started)] + calls, last, raised); }
  }

  lemma WholeAsked(started: real, calls: seq<Op>, last: seq<Op>, action: string, ops: seq<Op>)
    requires ops == [Now(started)] + calls + last
    ensures Asked(ops, action) == Asked(calls, action) + Asked(last, action)
  {
    AskedConcat([Now(started)], calls, action);
    NotAsked([Now(started)], action);
    AskedConcat([Now(started)] + calls, last, action);
  }

  lemma EndedByRaise(turns: seq<Turn>, last: seq<Op>, actions: seq<string>, hold: real, timeout: real, started: real,
                     ops: seq<Op>)
    requires Taken(turns, actions, hold, false) && ops == [Now(started)] + Calls(turns) + last
    requires Harmless(last) && StopsAtRaise(last, true)
    ensures Harmless(ops) && WaitEnded(Err(ClientRaised), ops, turns, actions, timeout, hold)
    ensures actions != [] ==> Asked(ops, actions[0]) == |turns| + Asked(last, actions[0])
  {
    CallsAreCalm(turns, actions, hold, false);
    WholeCalm(started, Calls(turns), last, true, ops);
    if actions != [] { WholeAsked(started, Calls(turns), last, actions[0], ops); }
  }

  lemma EndedIdle(turns: seq<Turn>, actions: seq<string>, hold: real, timeout: real, started: real, ops: seq<Op>)
    requires Taken(turns, actions, hold, true) && ops == [Now(started)] + Calls(turns)
    ensures Harmless(ops) && WaitEnded(Ok(()), ops, turns, actions, timeout, hold)
    ensures actions != [] ==> Asked(ops, actions[0]) == |turns|
  {
    CallsAreCalm(turns, actions, hold, true);
    IdleAtLast(turns, actions, hold, started);
    WholeCalm(started, Calls(turns), [], false, ops + []);
    assert ops + [] == ops && ops[1..] == Calls(turns);
    if actions != [] { WholeAsked(started, Calls(turns), [], actions[0], ops + []); }
  }

  lemma GaveUp(turns: seq<Turn>, sweep: seq<Op>, actions: seq<string>, hold: real, timeout: real, started: real, error: Error,
               ops: seq<Op>)
    requires Taken(turns, actions, hold, false) && turns != [] && ops == [Now(started)] + Calls(turns) + sweep
    requires var last := turns[|turns| - 1].ops; last != [] && last[|last| - 1].Now? && last[|last| - 1].t >= started + timeout
    ensures SweepSays(sweep, actions, error) ==> WaitEnded(Err(error), ops, turns, actions, timeout, hold)
    ensures Harmless(sweep) ==> Harmless(ops)
    ensures actions != [] ==> Asked(ops, actions[0]) == |turns| + Asked(sweep, actions[0])
  {
    GaveUpCalmly(turns, sweep, actions, hold, started, error, ops);
    LongRunEnds(turns, actions, hold);
    FailedAfter(turns, sweep, actions, timeout, started, error, ops);
  }

  lemma FailedAfter(turns: seq<Turn>, sweep: seq<Op>, actions: seq<string>, timeout: real, started: real, error: Error,
                    ops: seq<Op>)
    requires turns != [] && ops == [Now(started)] + Calls(turns) + sweep
    requires var last := turns[|turns| - 1].ops; last != [] && last[|last| - 1].Now? && last[|last| - 1].t >= started + timeout
    ensures SweepSays(sweep, actions, error) && StopsAtRaise(ops, error == ClientRaised) ==>
      WaitFailed(ops, actions, timeout, error) && (error != ClientRaised ==> MadeOf(ops, turns, |actions|))
  {
    LastCall(turns);
    SweptAfter(Calls(turns), sweep, actions, timeout, started, error, ops);
  }

  /** What a last sweep says of the failure. */
  predicate SweepSays(sweep: seq<Op>, actions: seq<string>, error: Error) {
    && StopsAtRaise(sweep, error == ClientRaised)
    && match error
       case ClientRaised => true
       case StillActive => FullSweep(sweep, actions) && !ZeroSweep(sweep, actions)
       case StillMoving => ZeroSweep(sweep, actions)
       case _ => false
  }

  lemma GaveUpCalmly(turns: seq<Turn>, sweep: seq<Op>, actions: seq<string>, hold: real, started: real, error: Error, ops: seq<Op>)
    requires Taken(turns, actions, hold, false) && ops == [Now(started)] + Calls(turns) + sweep
    ensures Harmless(sweep) ==> Harmless(ops)
    ensures StopsAtRaise(sweep, error == ClientRaised) ==> StopsAtRaise(ops, error == ClientRaised)
    ensures actions != [] ==> Asked(ops, actions[0]) == |turns| + Asked(sweep, actions[0])
  {
    CallsAreCalm(turns, actions, hold, false);
    WholeCalm(started, Calls(turns), sweep, error == ClientRaised, ops);
    if actions != [] { WholeAsked(started, Calls(turns), sweep, actions[0], ops); }
  }

  lemma SweptAfter(calls: seq<Op>, sweep: seq<Op>, actions: seq<string>, timeout: real, started: real, error: Error, ops: seq<Op>)
    requires ops == [Now(started)] + calls + sweep
    requires calls != [] && calls[|calls| - 1].Now? && calls[|calls| - 1].t >= started + timeout
    ensures SweepSays(sweep, actions, error) && StopsAtRaise(ops, error == ClientRaised) ==>
      WaitFailed(ops, actions, timeout, error)
      && (error != ClientRaised ==> ops[0].Now? && |actions| < |ops| && ops[1..|ops| - |actions|] == calls)
  {
    WholeShape(started, calls, sweep, ops);
  }

  lemma LastCall(turns: seq<Turn>)
    requires turns != [] && turns[|turns| - 1].ops != []
    ensures Calls(turns) != [] && Calls(turns)[|Calls(turns)| - 1] == turns[|turns| - 1].ops[|turns[|turns| - 1].ops| - 1]
  {
  }
}
