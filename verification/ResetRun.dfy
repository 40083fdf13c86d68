/** One whole reset: what every trace of it satisfies, whatever the client answers. */
module ResetRun {
  import opened Geometry
  import opened Reset

  const NAV_ACTIONS: seq<string> := ["/navigate_to_pose", "/go_to_approach"]
  const ARM_ACTIONS: seq<string> := ["/xarm7_traj_controller/follow_joint_trajectory", "/xarm_gripper/gripper_action"]

  /** Each name once, in the order first met. */
  function Unique(names: seq<string>): (u: seq<string>)
    ensures Distinct(u) && forall name :: name in u <==> name in names
  {
    if names == [] then []
    else
      var n := |names| - 1;
      var before := Unique(names[..n]);
      assert names == names[..n] + [names[n]];
      if names[n] in before then before else before + [names[n]]
  }

  /** Every known action and every action on the graph, each once. */
  function Watched(listed: seq<string>): (actions: seq<string>)
    ensures Distinct(actions)
    ensures forall name :: name in actions <==> name in NAV_ACTIONS || name in ARM_ACTIONS || name in listed
  {
    Unique(NAV_ACTIONS + ARM_ACTIONS + listed)
  }

  datatype Outcome = Outcome(truth: Pose, amcl: Pose, error2: real, errorDeg: real, before: Pose)

  // ------------------------------------------------------------- trace safety

  predicate StateOk(op: Op) { op.State? && op.reply.Got? && op.reply.value.ok }

  predicate RestoredNear(op: Op, spawn: Pose) { op.Truth? && op.pose.Got? && Near(op.pose.value, spawn, SPAWN_M, SPAWN_DEG) }

  predicate Localized(op: Op) {
    op.Seed? && op.amcl.Got? && op.amcl.value.Some? && Near(op.amcl.value.value, op.at, AMCL_M, AMCL_DEG)
  }

  /** The state reset at k comes straight after one truth reading and a sweep without active goals, and
      before these the robot was idle for the hold time. */
  predicate StateSafe(tr: seq<Op>, actions: seq<string>, hold: real, k: nat)
    requires k < |tr|
  {
    var n := |actions|;
    n + 1 <= k && ZeroSweep(tr[k - n..k], actions) && tr[k - n - 1].Truth? && IdleHeld(tr[..k - n - 1], actions, hold)
  }

  /** Localization is seeded at k with the pose just read after a successful state reset, near the spawn. */
  predicate SeedSafe(tr: seq<Op>, spawn: Pose, k: nat)
    requires k < |tr| && tr[k].Seed?
  {
    2 <= k && StateOk(tr[k - 2]) && RestoredNear(tr[k - 1], spawn) && tr[k].at == tr[k - 1].pose.value
  }

  /** The arm and head are homed at k after localization settled near the pose it was seeded with. */
  predicate HomeSafe(tr: seq<Op>, spawn: Pose, k: nat)
    requires k < |tr|
  {
    2 <= k && tr[k - 1].ClearCostmaps? && Localized(tr[k - 2]) && SeedSafe(tr, spawn, k - 2)
  }

  predicate OnlyState(tr: seq<Op>, k: nat) { forall j :: 0 <= j < |tr| && tr[j].State? ==> j == k }

  /** Safety of a whole trace. */
  predicate TraceSafe(tr: seq<Op>, actions: seq<string>, spawn: Pose, hold: real) {
    && (forall k :: 0 <= k < |tr| && tr[k].State? ==> StateSafe(tr, actions, hold, k) && OnlyState(tr, k))
    && (forall k :: 0 <= k < |tr| && tr[k].Seed? ==> SeedSafe(tr, spawn, k))
    && (forall k :: 0 <= k < |tr| && tr[k].Home? ==> HomeSafe(tr, spawn, k))
  }

  /** What a completed reset ends with, and what it reports: the last truth and its errors against the spawn, the
      settled localization, and the truth before the state reset. */
  predicate Finished(tr: seq<Op>, actions: seq<string>, spawn: Pose, outcome: Outcome) {
    var n, last := |actions|, |tr| - 1;
    && last >= 2 * n + 7 && tr[last - n - 2].Home? && ZeroSweep(tr[last - n..last], actions)
    && tr[last] == Truth(Got(outcome.truth))
    && tr[last - n - 4].Seed? && tr[last - n - 4].amcl == Got(Some(outcome.amcl))
    && tr[last - n - 6].State? && tr[last - 2 * n - 7] == Truth(Got(outcome.before))
    && outcome.error2 == (outcome.truth.x - spawn.x) * (outcome.truth.x - spawn.x)
                         + (outcome.truth.y - spawn.y) * (outcome.truth.y - spawn.y)
    && outcome.errorDeg == DegError(outcome.truth, spawn)
  }

  // ----------------------------------------------------------- how a run ends

  /** The last calls are a full sweep of the watched actions, right after a call at index at. */
  predicate EndsWithSweep(tr: seq<Op>, actions: seq<string>, zeros: bool) {
    var n := |actions|;
    && n < |tr| && Unraised(tr) && FullSweep(tr[|tr| - n..], actions) && (ZeroSweep(tr[|tr| - n..], actions) <==> zeros)
  }

  /** The call before the last sweep. */
  function BeforeSweep(tr: seq<Op>, actions: seq<string>): Op
    requires |actions| < |tr|
  {
    tr[|tr| - |actions| - 1]
  }

  /** The run ends with the truth being read after the settle, with no goal started meanwhile. */
  predicate EndsWithTruth(tr: seq<Op>, actions: seq<string>) {
    var n, last := |actions|, |tr| - 1;
    n + 1 < |tr| && Unraised(tr) && ZeroSweep(tr[last - n..last], actions) && tr[last - n - 1].Sleep? && tr[last].Truth?
  }

  function LastTruth(tr: seq<Op>): Pose
    requires tr != [] && tr[|tr| - 1].Truth? && tr[|tr| - 1].pose.Got?
  {
    tr[|tr| - 1].pose.value
  }

  /** The answer that makes a run fail with an error, always the last one. */
  predicate Cause(tr: seq<Op>, actions: seq<string>, spawn: Pose, reference: Option<Pose>, tolM: real, tolDeg: real,
                  idleTimeout: real, e: Error)
  {
    var last := |tr| - 1;
    match e
    case ClientRaised => StopsAtRaise(tr, true)
    case StillActive => EndsWithSweep(tr, actions, false) && Overdue(tr, actions, idleTimeout)
    case StillMoving => EndsWithSweep(tr, actions, true) && Overdue(tr, actions, idleTimeout)
    case BecameActive => EndsWithSweep(tr, actions, false) && BeforeSweep(tr, actions).Truth?
    case StateFailed(stop) => tr != [] && Unraised(tr) && tr[last] == State(Got(StateReply(false, stop)))
    case OffSpawn(false) =>
      |tr| > 1 && Unraised(tr) && StateOk(tr[last - 1]) && tr[last].Truth? && !Near(LastTruth(tr), spawn, SPAWN_M, SPAWN_DEG)
    case NoAmcl => tr != [] && Unraised(tr) && tr[last].Seed? && tr[last].amcl == Got(None)
    case AmclOff =>
      && tr != [] && Unraised(tr) && tr[last].Seed? && tr[last].amcl.value.Some?
      && !Near(tr[last].amcl.value.value, tr[last].at, AMCL_M, AMCL_DEG)
    case StartedDuring => EndsWithSweep(tr, actions, false) && BeforeSweep(tr, actions).Sleep?
    case OffSpawn(true) => EndsWithTruth(tr, actions) && !Near(LastTruth(tr), spawn, SPAWN_M, SPAWN_DEG)
    case OffReference =>
      && EndsWithTruth(tr, actions) && Near(LastTruth(tr), spawn, SPAWN_M, SPAWN_DEG)
      && reference.Some? && !Near(LastTruth(tr), reference.value, tolM, tolDeg)
  }

  /** The last sweep comes right after a clock reading past the timeout of the wait, which starts after the cancels. */
  predicate Overdue(tr: seq<Op>, actions: seq<string>, timeout: real) {
    var n := |actions|;
    && n + 1 < |tr| && tr[n + 1].Now? && BeforeSweep(tr, actions).Now?
    && BeforeSweep(tr, actions).t >= tr[n + 1].t + timeout
  }

  /** How a run ends that meets no such answer: no goal started, near the spawn, and near the reference. */
  predicate EndsWell(tr: seq<Op>, actions: seq<string>, spawn: Pose, reference: Option<Pose>, tolM: real, tolDeg: real) {
    && EndsWithTruth(tr, actions) && Near(LastTruth(tr), spawn, SPAWN_M, SPAWN_DEG)
    && (reference.Some? ==> Near(LastTruth(tr), reference.value, tolM, tolDeg))
  }

  /** The causes exclude each other, and a run that ends well has none. */
  lemma OneEnd(tr: seq<Op>, actions: seq<string>, spawn: Pose, reference: Option<Pose>, tolM: real, tolDeg: real,
               idleTimeout: real, e: Error, f: Error)
    requires actions != [] && Cause(tr, actions, spawn, reference, tolM, tolDeg, idleTimeout, e)
    ensures !EndsWell(tr, actions, spawn, reference, tolM, tolDeg)
    ensures Cause(tr, actions, spawn, reference, tolM, tolDeg, idleTimeout, f) ==> e == f
  {
    var n, last := |actions|, |tr| - 1;
    if n < |tr| && FullSweep(tr[|tr| - n..], actions) { assert tr[last] == tr[|tr| - n..][n - 1]; }
    if n + 1 < |tr| && ZeroSweep(tr[last - n..last], actions) { assert tr[last - 1] == tr[last - n..last][n - 1]; }
  }

  /** The calls from the state reset on: each is made only if the one before it went well. */
  predicate Steps(b: seq<Op>, spawn: Pose) {
    && |b| <= 6
    && (|b| >= 1 ==> b[0].State?)
    && (|b| >= 2 ==> StateOk(b[0]) && b[1].Truth?)
    && (|b| >= 3 ==> RestoredNear(b[1], spawn) && b[2].Seed? && b[2].at == b[1].pose.value)
    && (|b| >= 4 ==> Localized(b[2]) && b[3].ClearCostmaps?)
    && (|b| >= 5 ==> b[3].done.Got? && b[4].Home?)
    && (|b| >= 6 ==> b[5].Sleep?)
  }

  /** The last look before the state reset. */
  predicate Looked(a: seq<Op>, actions: seq<string>) {
    |a| == |actions| + 1 && a[0].Truth? && ZeroSweep(a[1..], actions)
  }

  lemma StateAt(head: seq<Op>, a: seq<Op>, rest: seq<Op>, actions: seq<string>, hold: real)
    requires IdleHeld(head, actions, hold) && Looked(a, actions) && rest != []
    ensures StateSafe(head + a + rest, actions, hold, |head| + |a|)
  {
    var tr, k, n := head + a + rest, |head| + |a|, |actions|;
    assert tr[k - n..k] == a[1..];
    assert tr[..k - n - 1] == head;
  }

  lemma SeedAndHomeAt(before: seq<Op>, b: seq<Op>, c: seq<Op>, spawn: Pose)
    requires Steps(b, spawn)
    ensures var tr, k := before + b + c, |before|;
      (|b| >= 3 ==> tr[k + 2].Seed? && SeedSafe(tr, spawn, k + 2)) && (|b| >= 5 ==> HomeSafe(tr, spawn, k + 4))
  {
    var tr, k := before + b + c, |before|;
    assert forall i :: 0 <= i < |b| ==> tr[k + i] == b[i];
  }

  /** The drastic calls of the trace are those of b, which starts at the given index. */
  predicate DrasticOnlyIn(tr: seq<Op>, b: seq<Op>, start: nat) {
    forall k {:trigger Drastic(tr[k])} :: 0 <= k < |tr| && Drastic(tr[k]) ==> start <= k < start + |b| && tr[k] == b[k - start]
  }

  lemma ConcatAt(before: seq<Op>, b: seq<Op>, c: seq<Op>, k: nat)
    requires k < |before + b + c|
    ensures (before + b + c)[k] ==
      if k < |before| then before[k] else if k < |before| + |b| then b[k - |before|] else c[k - |before| - |b|]
  {
  }

  lemma DrasticPlaces(before: seq<Op>, b: seq<Op>, c: seq<Op>)
    requires Harmless(before) && Harmless(c)
    ensures DrasticOnlyIn(before + b + c, b, |before|)
  {
    var tr := before + b + c;
    forall k | 0 <= k < |tr| && Drastic(tr[k]) ensures |before| <= k < |before| + |b| && tr[k] == b[k - |before|] {
      ConcatAt(before, b, c, k);
    }
  }

  /** At most one call of each drastic kind, each at its place. */
  lemma DrasticAt(tr: seq<Op>, b: seq<Op>, start: nat, spawn: Pose, k: nat)
    requires DrasticOnlyIn(tr, b, start) && Steps(b, spawn) && k < |tr|
    ensures tr[k].State? ==> k == start && b != []
    ensures tr[k].Seed? ==> k == start + 2 && |b| >= 3
    ensures tr[k].Home? ==> k == start + 4 && |b| >= 5
  {
    assert Drastic(tr[k]) ==> tr[k] == b[k - start];
  }

  lemma Assembled(head: seq<Op>, a: seq<Op>, b: seq<Op>, c: seq<Op>, actions: seq<string>, spawn: Pose, hold: real)
    requires Harmless(head) && Harmless(a) && Harmless(c) && Steps(b, spawn)
    requires b != [] ==> IdleHeld(head, actions, hold) && Looked(a, actions)
    ensures TraceSafe(head + a + b + c, actions, spawn, hold)
  {
    var before := head + a;
    assert Harmless(before);
    DrasticPlaces(before, b, c);
    SeedAndHomeAt(before, b, c, spawn);
    if b != [] {
      assert head + a + (b + c) == before + b + c;
      StateAt(head, a, b + c, actions, hold);
    }
    SafeByPlaces(before + b + c, b, |before|, actions, spawn, hold);
  }

  lemma HarmlessIsSafe(tr: seq<Op>, actions: seq<string>, spawn: Pose, hold: real)
    requires Harmless(tr)
    ensures TraceSafe(tr, actions, spawn, hold)
  {
  }

  lemma SafeByPlaces(tr: seq<Op>, b: seq<Op>, start: nat, actions: seq<string>, spawn: Pose, hold: real)
    requires DrasticOnlyIn(tr, b, start) && Steps(b, spawn) && start + |b| <= |tr|
    requires b != [] ==> StateSafe(tr, actions, hold, start)
    requires |b| >= 3 ==> tr[start + 2].Seed? && SeedSafe(tr, spawn, start + 2)
    requires |b| >= 5 ==> HomeSafe(tr, spawn, start + 4)
    ensures TraceSafe(tr, actions, spawn, hold)
  {
    forall k: nat | k < |tr|
      ensures tr[k].State? ==> k == start && b != []
      ensures tr[k].Seed? ==> k == start + 2 && |b| >= 3
      ensures tr[k].Home? ==> k == start + 4 && |b| >= 5
    {
      DrasticAt(tr, b, start, spawn, k);
    }
  }

  // ----------------------------------------------------------------- the phases

  method CancelEvery(client: Client, actions: seq<string>) returns (raised: bool, ghost ops: seq<Op>)
    modifies client
    ensures client.trace == old(client.trace) + ops && Harmless(ops)
    ensures !raised ==> |ops| == |actions| && forall i :: 0 <= i < |ops| ==> ops[i].Cancel? && ops[i].action == actions[i]
    ensures StopsAtRaise(ops, raised)
  {
    ops := [];
    for i := 0 to |actions|
      invariant client.trace == old(client.trace) + ops && Harmless(ops) && |ops| == i && Unraised(ops)
      invariant forall k :: 0 <= k < i ==> ops[k].Cancel? && ops[k].action == actions[k]
    {
      var found := client.CancelAllGoals(actions[i]);
      assert (ops + [Cancel(actions[i], found)])[..i] == ops;
      ops := ops + [Cancel(actions[i], found)];
      if found.Raised? { return true, ops; }
    }
    raised := false;
  }

  /** The pose before the reset and a last look for active goals. */
  method LookBefore(client: Client, actions: seq<string>) returns (r: Result<Pose>, ghost a: seq<Op>)
    requires Distinct(actions)
    modifies client
    ensures client.trace == old(client.trace) + a && Harmless(a)
    ensures r.Ok? ==> Looked(a, actions) && Unraised(a) && a[0] == Truth(Got(r.value))
    ensures r.Err? ==> LookFailed(a, actions, r.error)
  {
    var before := client.TruthPose();
    a := [Truth(before)];
    if before.Raised? { return Err(ClientRaised), a; }
    var active; ghost var sweep;
    active, sweep := ActiveActions(client, actions);
    StopsLater(a, sweep, active.Raised?);
    a := a + sweep;
    assert a[1..] == sweep;
    if active.Raised? { return Err(ClientRaised), a; }
    if active.value != [] { return Err(BecameActive), a; }
    r := Ok(before.value);
  }

  predicate LookFailed(a: seq<Op>, actions: seq<string>, e: Error) {
    match e
    case ClientRaised => StopsAtRaise(a, true)
    case BecameActive =>
      Unraised(a) && |a| == |actions| + 1 && a[0].Truth? && FullSweep(a[1..], actions) && !ZeroSweep(a[1..], actions)
    case _ => false
  }

  /** The answer at which the calls from the state reset on stopped. */
  predicate ResetFailed(b: seq<Op>, spawn: Pose, e: Error) {
    match e
    case ClientRaised => StopsAtRaise(b, true)
    case StateFailed(stop) => b == [State(Got(StateReply(false, stop)))]
    case OffSpawn(false) =>
      |b| == 2 && StateOk(b[0]) && b[1].Truth? && b[1].pose.Got? && !Near(b[1].pose.value, spawn, SPAWN_M, SPAWN_DEG)
    case NoAmcl => |b| == 3 && Unraised(b) && b[2].Seed? && b[2].amcl == Got(None)
    case AmclOff =>
      && |b| == 3 && Unraised(b) && b[2].Seed? && b[2].amcl.value.Some?
      && !Near(b[2].amcl.value.value, b[2].at, AMCL_M, AMCL_DEG)
    case _ => false
  }

  /** The state reset, the check of where it put the robot, localization, costmaps, homing. */
  method ResetAndHome(client: Client, spawn: Pose, settle: real) returns (r: Result<Pose>, ghost b: seq<Op>)
    modifies client
    ensures client.trace == old(client.trace) + b && Steps(b, spawn)
    ensures r.Ok? ==> |b| == 6 && b[2] == Seed(b[2].at, Got(Some(r.value))) && Unraised(b)
    ensures r.Err? ==> ResetFailed(b, spawn, r.error)
  {
    var reply := client.ResetState();
    b := [State(reply)];
    if reply.Raised? { return Err(ClientRaised), b; }
    if !reply.value.ok { return Err(StateFailed(reply.value.stopAsserted)), b; }
    var restored := client.TruthPose();
    b := b + [Truth(restored)];
    if restored.Raised? { return Err(ClientRaised), b; }
    if !Near(restored.value, spawn, SPAWN_M, SPAWN_DEG) { return Err(OffSpawn(false)), b; }
    var amcl := client.SeedLocalization(restored.value);
    b := b + [Seed(restored.value, amcl)];
    if amcl.Raised? { return Err(ClientRaised), b; }
    if amcl.value.None? { return Err(NoAmcl), b; }
    if !Near(amcl.value.value, restored.value, AMCL_M, AMCL_DEG) { return Err(AmclOff), b; }
    var done := client.Clear();
    b := b + [ClearCostmaps(done)];
    if done.Raised? { return Err(ClientRaised), b; }
    done := client.HomeArmAndHead();
    b := b + [Home(done)];
    if done.Raised? { return Err(ClientRaised), b; }
    client.SleepFor(settle);
    b := b + [Sleep(settle)];
    r := Ok(amcl.value.value);
  }

  predicate SettledTruth(c: seq<Op>, actions: seq<string>, truth: Pose) {
    |c| == |actions| + 1 && Unraised(c) && ZeroSweep(c[..|actions|], actions) && c[|actions|] == Truth(Got(truth))
  }

  predicate SettleFailed(c: seq<Op>, actions: seq<string>, spawn: Pose, reference: Option<Pose>, tolM: real, tolDeg: real, e: Error) {
    match e
    case ClientRaised => StopsAtRaise(c, true)
    case StartedDuring => Unraised(c) && FullSweep(c, actions) && !ZeroSweep(c, actions)
    case OffSpawn(true) =>
      && |c| == |actions| + 1 && c[|actions|].Truth? && c[|actions|].pose.Got?
      && var p := c[|actions|].pose.value; SettledTruth(c, actions, p) && !Near(p, spawn, SPAWN_M, SPAWN_DEG)
    case OffReference =>
      && |c| == |actions| + 1 && c[|actions|].Truth? && c[|actions|].pose.Got?
      && var p := c[|actions|].pose.value;
         && SettledTruth(c, actions, p) && Near(p, spawn, SPAWN_M, SPAWN_DEG)
         && reference.Some? && !Near(p, reference.value, tolM, tolDeg)
    case _ => false
  }

  /** After the settle: no goal started, the robot still near the spawn and near the reference. */
  method Settled(client: Client, actions: seq<string>, spawn: Pose, reference: Option<Pose>, tolM: real, tolDeg: real)
    returns (r: Result<Pose>, ghost c: seq<Op>)
    requires Distinct(actions)
    modifies client
    ensures client.trace == old(client.trace) + c && Harmless(c)
    ensures SettleEnded(c, actions, spawn, reference, tolM, tolDeg, r)
  {
    var active;
    active, c := ActiveActions(client, actions);
    if active.Raised? { return Err(ClientRaised), c; }
    if active.value != [] { return Err(StartedDuring), c; }
    ghost var sweep := c;
    var truth := client.TruthPose();
    StopsLater(sweep, [Truth(truth)], truth.Raised?);
    c := sweep + [Truth(truth)];
    assert c[..|sweep|] == sweep;
    if truth.Raised? { return Err(ClientRaised), c; }
    if !Near(truth.value, spawn, SPAWN_M, SPAWN_DEG) { return Err(OffSpawn(true)), c; }
    if reference.Some? && !Near(truth.value, reference.value, tolM, tolDeg) { return Err(OffReference), c; }
    r := Ok(truth.value);
  }

  /** The end of a run that came as far as the settle. */
  lemma EndsAfterSettle(before: seq<Op>, b: seq<Op>, c: seq<Op>, actions: seq<string>, spawn: Pose, reference: Option<Pose>,
                        tolM: real, tolDeg: real, idleTimeout: real)
    requires Unraised(before) && Steps(b, spawn) && |b| == 6 && Unraised(b)
    ensures forall e :: SettleFailed(c, actions, spawn, reference, tolM, tolDeg, e) ==>
      Cause(before + b + c, actions, spawn, reference, tolM, tolDeg, idleTimeout, e)
    ensures forall truth :: SettledTruth(c, actions, truth) ==>
      EndsWithTruth(before + b + c, actions) && LastTruth(before + b + c) == truth
  {
    var tr, n := before + b + c, |actions|;
    if StopsAtRaise(c, true) { StopsLater(before + b, c, true); }
    if |c| == n { SweepLast(before + b, c, actions); }
    if |c| == n + 1 { TruthLast(before, b, c, actions, spawn); }
  }

  lemma SweepLast(before: seq<Op>, sweep: seq<Op>, actions: seq<string>)
    requires |sweep| == |actions| && before != []
    ensures var tr := before + sweep; tr[|tr| - |actions|..] == sweep && tr[|tr| - |actions| - 1] == before[|before| - 1]
    ensures Unraised(before) && Unraised(sweep) ==> Unraised(before + sweep)
  {
  }

  lemma TruthLast(before: seq<Op>, b: seq<Op>, c: seq<Op>, actions: seq<string>, spawn: Pose)
    requires Steps(b, spawn) && |b| == 6 && |c| == |actions| + 1
    ensures var tr, n := before + b + c, |actions|;
      var last := |tr| - 1;
      tr[last - n..last] == c[..n] && tr[last] == c[n] && tr[last - n - 1] == b[5]
    ensures Unraised(before) && Unraised(b) && Unraised(c) ==> Unraised(before + b + c)
  {
  }

  lemma FinishedBy(head: seq<Op>, a: seq<Op>, b: seq<Op>, c: seq<Op>, actions: seq<string>, spawn: Pose, outcome: Outcome)
    requires Looked(a, actions) && a[0] == Truth(Got(outcome.before)) && Steps(b, spawn) && |b| == 6
    requires b[2] == Seed(b[2].at, Got(Some(outcome.amcl))) && SettledTruth(c, actions, outcome.truth)
    requires outcome.error2 == Distance2(outcome.truth, spawn) && outcome.errorDeg == DegError(outcome.truth, spawn)
    ensures Finished(head + a + b + c, actions, spawn, outcome)
  {
    PlacesFromEnd(head, a, b, c, |actions|);
    FinishedAt(head + a + b + c, a[0], b[0], b[2], b[4], c, actions, spawn, outcome);
  }

  lemma FinishedAt(tr: seq<Op>, first: Op, state: Op, seed: Op, home: Op, c: seq<Op>, actions: seq<string>, spawn: Pose,
                   outcome: Outcome)
    requires var n, last := |actions|, |tr| - 1;
      && last >= 2 * n + 7 && |c| == n + 1 && tr[last - n..last] == c[..n] && tr[last] == c[n]
      && tr[last - n - 6] == state && tr[last - n - 4] == seed && tr[last - n - 2] == home && tr[last - 2 * n - 7] == first
    requires first == Truth(Got(outcome.before)) && state.State? && home.Home?
    requires seed.Seed? && seed.amcl == Got(Some(outcome.amcl))
    requires ZeroSweep(c[..|actions|], actions) && c[|actions|] == Truth(Got(outcome.truth))
    requires outcome.error2 == Distance2(outcome.truth, spawn) && outcome.errorDeg == DegError(outcome.truth, spawn)
    ensures Finished(tr, actions, spawn, outcome)
  {
  }

  lemma PlacesFromEnd(head: seq<Op>, a: seq<Op>, b: seq<Op>, c: seq<Op>, n: nat)
    requires |a| == n + 1 && |b| == 6 && |c| == n + 1
    ensures var tr := head + a + b + c;
      var last := |tr| - 1;
      && last >= 2 * n + 7 && tr[last - n..last] == c[..n] && tr[last] == c[n]
      && tr[last - n - 6] == b[0] && tr[last - n - 4] == b[2] && tr[last - n - 2] == b[4] && tr[last - 2 * n - 7] == a[0]
  {
  }

  /** The watched actions are the known ones and those listed first of all. */
  predicate Lists(tr: seq<Op>, actions: seq<string>) {
    tr != [] && tr[0].ListActions? && actions == Watched(tr[0].names)
  }

  /** Every watched action is cancelled before anything else. */
  predicate Started(tr: seq<Op>, actions: seq<string>) {
    && |tr| > |actions| && Lists(tr, actions)
    && forall i :: 1 <= i <= |actions| ==> tr[i].Cancel? && tr[i].action == actions[i - 1]
  }

  /** Cancels, and waits for the robot to be idle. */
  method Quieten(client: Client, idleTimeout: real, poll: real)
    returns (r: Result<()>, actions: seq<string>, ghost head: seq<Op>)
    requires poll > 0.0
    modifies client
    ensures client.trace == old(client.trace) + head && Harmless(head) && Distinct(actions) && Lists(head, actions)
    ensures r.Ok? ==> IdleHeld(head, actions, HOLD) && Started(head, actions) && Unraised(head)
    ensures r.Err? ==> QuietenFailed(head, actions, idleTimeout, r.error)
  {
    var names := client.Names();
    actions := Watched(names);
    head := [ListActions(names)];
    var raised; ghost var cancels;
    raised, cancels := CancelEvery(client, actions);
    StopsLater(head, cancels, raised);
    head := head + cancels;
    if raised { return Err(ClientRaised), actions, head; }
    ghost var before := head;
    ghost var wait; ghost var turns;
    r, wait, turns := WaitUntilIdle(client, actions, idleTimeout, poll, HOLD);
    head := before + wait;
    Waited(before, cancels, wait, turns, names, actions, idleTimeout, r);
  }

  predicate QuietenFailed(head: seq<Op>, actions: seq<string>, timeout: real, e: Error) {
    match e
    case ClientRaised => StopsAtRaise(head, true)
    case StillActive => EndsWithSweep(head, actions, false) && Overdue(head, actions, timeout)
    case StillMoving => EndsWithSweep(head, actions, true) && Overdue(head, actions, timeout)
    case _ => false
  }

  lemma Waited(before: seq<Op>, cancels: seq<Op>, wait: seq<Op>, turns: seq<Turn>, names: seq<string>, actions: seq<string>,
               timeout: real, r: Result<()>)
    requires before == [ListActions(names)] + cancels && actions == Watched(names) && Unraised(before)
    requires |cancels| == |actions| && forall i :: 0 <= i < |cancels| ==> cancels[i].Cancel? && cancels[i].action == actions[i]
    requires WaitEnded(r, wait, turns, actions, timeout, HOLD)
    ensures r.Ok? ==> IdleHeld(before + wait, actions, HOLD) && Started(before + wait, actions) && Unraised(before + wait)
    ensures r.Err? ==> QuietenFailed(before + wait, actions, timeout, r.error)
  {
    if r.Ok? {
      StillHeld(before, wait, actions, HOLD);
      StartsSo(before, cancels, wait, names, actions);
    } else {
      WaitedInVain(before, wait, actions, timeout, r.error);
    }
  }

  lemma StartsSo(before: seq<Op>, cancels: seq<Op>, wait: seq<Op>, names: seq<string>, actions: seq<string>)
    requires before == [ListActions(names)] + cancels && actions == Watched(names)
    requires |cancels| == |actions| && forall i :: 0 <= i < |cancels| ==> cancels[i].Cancel? && cancels[i].action == actions[i]
    ensures wait != [] ==> Started(before + wait, actions)
    ensures Started(before, actions)
  {
    assert forall i :: 1 <= i <= |actions| ==> (before + wait)[i] == cancels[i - 1];
  }

  lemma WaitedInVain(before: seq<Op>, wait: seq<Op>, actions: seq<string>, timeout: real, e: Error)
    requires |before| == |actions| + 1 && Unraised(before) && WaitFailed(wait, actions, timeout, e)
    ensures QuietenFailed(before + wait, actions, timeout, e)
  {
    var tr, n := before + wait, |actions|;
    if e == ClientRaised {
      StopsLater(before, wait, true);
    } else {
      assert tr[|tr| - n..] == wait[|wait| - n..];
      assert tr[|tr| - n - 1] == wait[|wait| - n - 1] && tr[n + 1] == wait[0];
    }
  }

  lemma StillHeld(before: seq<Op>, ops: seq<Op>, actions: seq<string>, hold: real)
    requires IdleHeld(ops, actions, hold)
    ensures IdleHeld(before + ops, actions, hold)
  {
    var i: nat :| i < |ops| && HeldFrom(ops, actions, hold, i);
    var all, n := before + ops, |actions|;
    var j := |before| + i;
    assert all[j..j + n] == ops[i..i + n];
    forall k | j <= k < |all| ensures Quiet(all[k]) { assert all[k] == ops[k - |before|]; }
    assert HeldFrom(all, actions, hold, j);
  }

  /** In every run, whatever the client answers or raises: the trace is safe; a reset that reports success ends with a
      quiet robot near its spawn and near the reference; and it succeeds exactly if the trace ends well, and otherwise
      fails with the error that the last answer causes. */
  method RunReset(client: Client, spawn: Pose, reference: Option<Pose>, tolM: real, tolDeg: real,
                  idleTimeout: real, poll: real, settle: real)
    returns (r: Result<Outcome>, ghost actions: seq<string>, ghost tr: seq<Op>)
    requires poll > 0.0
    modifies client
    ensures client.trace == old(client.trace) + tr
    ensures Lists(tr, actions) && TraceSafe(tr, actions, spawn, HOLD)
    ensures RunEnded(r, tr, actions, spawn, reference, tolM, tolDeg, idleTimeout) && (r.Ok? ==> Started(tr, actions))
    ensures r.Ok? <==> EndsWell(tr, actions, spawn, reference, tolM, tolDeg)
  {
    var before, watched; ghost var head; ghost var a;
    before, watched, head, a := Prepare(client, idleTimeout, poll);
    actions := watched;
    if before.Err? {
      EndedEarly(head, a, actions, spawn, reference, tolM, tolDeg, idleTimeout, before.error);
      return Err(before.error), actions, head + a;
    }
    ghost var b; ghost var c; var amcl; var truth;
    amcl, truth, b, c := FromStateOn(client, watched, spawn, reference, tolM, tolDeg, settle);
    r := if amcl.Err? then Err(amcl.error) else if truth.Err? then Err(truth.error)
         else Ok(Outcome(truth.value, amcl.value, Distance2(truth.value, spawn), DegError(truth.value, spawn), before.value));
    tr := head + a + b + c;
    EndedLate(head, a, b, c, actions, spawn, reference, tolM, tolDeg, idleTimeout, before.value, amcl, truth, r);
    TraceIs(old(client.trace), head, a, b, c);
  }

  lemma TraceIs(before: seq<Op>, head: seq<Op>, a: seq<Op>, b: seq<Op>, c: seq<Op>)
    ensures before + (head + a) + (b + c) == before + (head + a + b + c)
  {
  }

  /** A run that succeeds is finished and ends well; one that fails meets the cause of its error. */
  predicate RunEnded(r: Result<Outcome>, tr: seq<Op>, actions: seq<string>, spawn: Pose, reference: Option<Pose>, tolM: real,
                     tolDeg: real, idleTimeout: real)
  {
    match r
    case Ok(outcome) => Finished(tr, actions, spawn, outcome) && EndsWell(tr, actions, spawn, reference, tolM, tolDeg)
    case Err(e) => Cause(tr, actions, spawn, reference, tolM, tolDeg, idleTimeout, e)
  }

  lemma EndedExactly(r: Result<Outcome>, tr: seq<Op>, actions: seq<string>, spawn: Pose, reference: Option<Pose>, tolM: real,
                     tolDeg: real, idleTimeout: real)
    requires actions != []
    ensures RunEnded(r, tr, actions, spawn, reference, tolM, tolDeg, idleTimeout) ==>
      (r.Ok? <==> EndsWell(tr, actions, spawn, reference, tolM, tolDeg))
  {
    if RunEnded(r, tr, actions, spawn, reference, tolM, tolDeg, idleTimeout) && r.Err? {
      OneEnd(tr, actions, spawn, reference, tolM, tolDeg, idleTimeout, r.error, r.error);
    }
  }

  lemma SomeAreWatched(tr: seq<Op>, actions: seq<string>)
    requires Lists(tr, actions)
    ensures actions != []
  {
    assert NAV_ACTIONS[0] in actions;
  }

  /** How the calls before the state reset failed: during the wait, or at the last look. */
  predicate PrepareFailed(head: seq<Op>, a: seq<Op>, actions: seq<string>, timeout: real, e: Error) {
    (a == [] && QuietenFailed(head, actions, timeout, e)) || (Unraised(head) && LookFailed(a, actions, e))
  }

  /** How they succeeded. */
  predicate Prepared(head: seq<Op>, a: seq<Op>, actions: seq<string>, before: Pose) {
    && IdleHeld(head, actions, HOLD) && Started(head, actions) && Unraised(head)
    && Looked(a, actions) && Unraised(a) && a[0] == Truth(Got(before))
  }

  /** Everything up to the state reset. */
  method Prepare(client: Client, idleTimeout: real, poll: real)
    returns (r: Result<Pose>, actions: seq<string>, ghost head: seq<Op>, ghost a: seq<Op>)
    requires poll > 0.0
    modifies client
    ensures client.trace == old(client.trace) + (head + a) && Harmless(head) && Harmless(a)
    ensures Distinct(actions) && Lists(head, actions)
    ensures r.Ok? ==> Prepared(head, a, actions, r.value)
    ensures r.Err? ==> PrepareFailed(head, a, actions, idleTimeout, r.error)
  {
    var idle;
    idle, actions, head := Quieten(client, idleTimeout, poll);
    a := [];
    if idle.Err? { return Err(idle.error), actions, head, a; }
    r, a := LookBefore(client, actions);
  }

  /** The part of a reset that changes the simulation, and the last look after the settle. */
  method FromStateOn(client: Client, actions: seq<string>, spawn: Pose, reference: Option<Pose>, tolM: real, tolDeg: real,
                     settle: real)
    returns (amcl: Result<Pose>, truth: Result<Pose>, ghost b: seq<Op>, ghost c: seq<Op>)
    requires Distinct(actions)
    modifies client
    ensures client.trace == old(client.trace) + (b + c) && Steps(b, spawn) && Harmless(c)
    ensures amcl.Err? ==> c == [] && ResetFailed(b, spawn, amcl.error)
    ensures amcl.Ok? ==>
      |b| == 6 && b[2] == Seed(b[2].at, Got(Some(amcl.value))) && Unraised(b)
      && SettleEnded(c, actions, spawn, reference, tolM, tolDeg, truth)
  {
    amcl, b := ResetAndHome(client, spawn, settle);
    c, truth := [], Err(ClientRaised);
    if amcl.Ok? { truth, c := Settled(client, actions, spawn, reference, tolM, tolDeg); }
  }

  lemma EndedEarly(head: seq<Op>, a: seq<Op>, actions: seq<string>, spawn: Pose, reference: Option<Pose>, tolM: real,
                   tolDeg: real, idleTimeout: real, e: Error)
    requires Harmless(head) && Harmless(a) && Lists(head, actions)
    ensures PrepareFailed(head, a, actions, idleTimeout, e) ==>
      && Lists(head + a, actions) && TraceSafe(head + a, actions, spawn, HOLD)
      && RunEnded(Err(e), head + a, actions, spawn, reference, tolM, tolDeg, idleTimeout)
      && !EndsWell(head + a, actions, spawn, reference, tolM, tolDeg)
  {
    if PrepareFailed(head, a, actions, idleTimeout, e) {
      HarmlessIsSafe(head + a, actions, spawn, HOLD);
      EarlyCause(head, a, actions, spawn, reference, tolM, tolDeg, idleTimeout, e);
      SomeAreWatched(head, actions);
      OneEnd(head + a, actions, spawn, reference, tolM, tolDeg, idleTimeout, e, e);
    }
  }

  lemma EarlyCause(head: seq<Op>, a: seq<Op>, actions: seq<string>, spawn: Pose, reference: Option<Pose>, tolM: real,
                   tolDeg: real, idleTimeout: real, e: Error)
    requires PrepareFailed(head, a, actions, idleTimeout, e)
    ensures Cause(head + a, actions, spawn, reference, tolM, tolDeg, idleTimeout, e)
  {
    if a == [] && QuietenFailed(head, actions, idleTimeout, e) {
      assert head + a == head;
    } else {
      LookedInVain(head, a, actions, spawn, reference, tolM, tolDeg, idleTimeout, e);
    }
  }

  /** A run that came as far as the state reset. */
  predicate LateParts(b: seq<Op>, c: seq<Op>, actions: seq<string>, spawn: Pose, reference: Option<Pose>, tolM: real, tolDeg: real,
                      amcl: Result<Pose>, truth: Result<Pose>)
  {
    match amcl
    case Err(e) => c == [] && ResetFailed(b, spawn, e)
    case Ok(pose) =>
      && |b| == 6 && b[2].Seed? && b[2].amcl == Got(Some(pose)) && Unraised(b)
      && SettleEnded(c, actions, spawn, reference, tolM, tolDeg, truth)
  }

  lemma EndedLate(head: seq<Op>, a: seq<Op>, b: seq<Op>, c: seq<Op>, actions: seq<string>, spawn: Pose, reference: Option<Pose>,
                  tolM: real, tolDeg: real, idleTimeout: real, before: Pose, amcl: Result<Pose>, truth: Result<Pose>,
                  r: Result<Outcome>)
    requires Harmless(head) && Harmless(a) && Harmless(c) && Steps(b, spawn) && Lists(head, actions)
    requires r == if amcl.Err? then Err(amcl.error) else if truth.Err? then Err(truth.error)
                  else Ok(Outcome(truth.value, amcl.value, Distance2(truth.value, spawn), DegError(truth.value, spawn), before))
    ensures Prepared(head, a, actions, before) && LateParts(b, c, actions, spawn, reference, tolM, tolDeg, amcl, truth) ==>
      var tr := head + a + b + c;
      && Lists(tr, actions) && Started(tr, actions) && TraceSafe(tr, actions, spawn, HOLD)
      && RunEnded(r, tr, actions, spawn, reference, tolM, tolDeg, idleTimeout)
      && (r.Ok? <==> EndsWell(tr, actions, spawn, reference, tolM, tolDeg))
  {
    if Prepared(head, a, actions, before) && LateParts(b, c, actions, spawn, reference, tolM, tolDeg, amcl, truth) {
      Assembled(head, a, b, c, actions, spawn, HOLD);
      StartedMore(head, head + a + b + c, actions);
      LateEnd(head, a, b, c, actions, spawn, reference, tolM, tolDeg, idleTimeout, before, amcl, truth, r);
      SomeAreWatched(head, actions);
      EndedExactly(r, head + a + b + c, actions, spawn, reference, tolM, tolDeg, idleTimeout);
    }
  }

  lemma LateEnd(head: seq<Op>, a: seq<Op>, b: seq<Op>, c: seq<Op>, actions: seq<string>, spawn: Pose, reference: Option<Pose>,
                tolM: real, tolDeg: real, idleTimeout: real, before: Pose, amcl: Result<Pose>, truth: Result<Pose>,
                r: Result<Outcome>)
    requires Looked(a, actions) && a[0] == Truth(Got(before)) && Unraised(head) && Unraised(a) && Steps(b, spawn)
    requires LateParts(b, c, actions, spawn, reference, tolM, tolDeg, amcl, truth)
    requires r == if amcl.Err? then Err(amcl.error) else if truth.Err? then Err(truth.error)
                  else Ok(Outcome(truth.value, amcl.value, Distance2(truth.value, spawn), DegError(truth.value, spawn), before))
    ensures RunEnded(r, head + a + b + c, actions, spawn, reference, tolM, tolDeg, idleTimeout)
  {
    assert Unraised(head + a);
    if amcl.Err? {
      ResetInVain(head + a, b, actions, spawn, reference, tolM, tolDeg, idleTimeout, amcl.error);
      assert head + a + b + c == head + a + b;
    } else {
      EndedAfterSettle(head, a, b, c, actions, spawn, reference, tolM, tolDeg, idleTimeout, before, amcl.value, truth, r);
    }
  }

  lemma LookedInVain(head: seq<Op>, a: seq<Op>, actions: seq<string>, spawn: Pose, reference: Option<Pose>, tolM: real,
                     tolDeg: real, idleTimeout: real, e: Error)
    requires Unraised(head) && LookFailed(a, actions, e)
    ensures Cause(head + a, actions, spawn, reference, tolM, tolDeg, idleTimeout, e)
  {
    if e == ClientRaised {
      StopsLater(head, a, true);
    } else {
      SweepLast(head + [a[0]], a[1..], actions);
      assert head + [a[0]] + a[1..] == head + a;
    }
  }

  lemma StartedMore(head: seq<Op>, tr: seq<Op>, actions: seq<string>)
    requires Started(head, actions) && head <= tr
    ensures Started(tr, actions)
  {
    assert forall i :: 0 <= i < |head| ==> tr[i] == head[i];
  }

  lemma ResetInVain(before: seq<Op>, b: seq<Op>, actions: seq<string>, spawn: Pose, reference: Option<Pose>, tolM: real,
                    tolDeg: real, idleTimeout: real, e: Error)
    requires Unraised(before) && ResetFailed(b, spawn, e)
    ensures Cause(before + b, actions, spawn, reference, tolM, tolDeg, idleTimeout, e)
  {
    if e == ClientRaised { StopsLater(before, b, true); }
  }

  predicate SettleEnded(c: seq<Op>, actions: seq<string>, spawn: Pose, reference: Option<Pose>, tolM: real, tolDeg: real,
                        r: Result<Pose>)
  {
    match r
    case Ok(truth) =>
      && SettledTruth(c, actions, truth) && Near(truth, spawn, SPAWN_M, SPAWN_DEG)
      && (reference.Some? ==> Near(truth, reference.value, tolM, tolDeg))
    case Err(e) => SettleFailed(c, actions, spawn, reference, tolM, tolDeg, e)
  }

  lemma EndedAfterSettle(head: seq<Op>, a: seq<Op>, b: seq<Op>, c: seq<Op>, actions: seq<string>, spawn: Pose,
                         reference: Option<Pose>, tolM: real, tolDeg: real, idleTimeout: real, before: Pose, amcl: Pose,
                         truth: Result<Pose>, r: Result<Outcome>)
    requires Looked(a, actions) && a[0] == Truth(Got(before)) && Unraised(head + a)
    requires Steps(b, spawn) && |b| == 6 && b[2] == Seed(b[2].at, Got(Some(amcl))) && Unraised(b)
    requires r == if truth.Err? then Err(truth.error)
                  else Ok(Outcome(truth.value, amcl, Distance2(truth.value, spawn), DegError(truth.value, spawn), before))
    ensures SettleEnded(c, actions, spawn, reference, tolM, tolDeg, truth) ==>
      RunEnded(r, head + a + b + c, actions, spawn, reference, tolM, tolDeg, idleTimeout)
  {
    if SettleEnded(c, actions, spawn, reference, tolM, tolDeg, truth) {
      EndsAfterSettle(head + a, b, c, actions, spawn, reference, tolM, tolDeg, idleTimeout);
      if r.Ok? { FinishedBy(head, a, b, c, actions, spawn, r.value); }
    }
  }
}
