/** The pre-sent motion goal: who can still cancel it, at every step of a driver run. */
module Presend {
  import opened Geometry

  /** What a goal handle tells: its goal, whether it was accepted, and whether its id can be read. */
  datatype Handle = Handle(goal: nat, accepted: bool, readable: bool)

  datatype Event =
    | Assigned(goal: nat)         // the goal id is chosen and retained
    | Sent(goal: nat)             // the goal reaches the server
    | CleanupByHandle(goal: nat, left: bool)  // cancel and drain on the retained handle
    | CancelByUuid(goal: nat, left: bool)     // cancel of exactly this id; left: a request really left

  predicate IsCleanup(e: Event) { e.CleanupByHandle? || e.CancelByUuid? }

  predicate Cleans(e: Event, goal: nat) { IsCleanup(e) && e.goal == goal }

  /** Of each cleanup in turn, whether its cancel request left: the cancel service may not be there. */
  function Lefts(events: seq<Event>): seq<bool> {
    if events == [] then []
    else
      var before, e := Lefts(events[..|events| - 1]), events[|events| - 1];
      if IsCleanup(e) then before + [e.left] else before
  }

  /** A cancel request that names the goal left after the goal was sent. */
  predicate Requested(events: seq<Event>, goal: nat) {
    exists i, j :: 0 <= i < j < |events| && events[i] == Sent(goal) && Cleans(events[j], goal) && events[j].left
  }

  /** What happened so far and what the driver holds. */
  datatype Snap = Snap(events: seq<Event>, handle: Option<Handle>, uuid: Option<nat>)

  /** A cleanup of the goal was attempted after it was sent. */
  predicate Attempted(events: seq<Event>, goal: nat) {
    exists i, j :: 0 <= i < j < |events| && events[i] == Sent(goal) && Cleans(events[j], goal)
  }

  predicate WasSent(events: seq<Event>) { exists i :: 0 <= i < |events| && events[i].Sent? }

  /** Everything that happens concerns the one goal whose id was chosen first; it is sent next or never. */
  predicate OneGoal(events: seq<Event>) {
    events != [] ==>
      && events[0].Assigned?
      && forall i :: 0 < i < |events| ==> events[i].goal == events[0].goal && (IsCleanup(events[i]) || (events[i].Sent? && i == 1))
  }

  /** The goal is held by its handle or by its id. */
  predicate Held(s: Snap) { s.handle.Some? || s.uuid.Some? }

  predicate Safe(s: Snap) {
    && OneGoal(s.events)
    && (s.handle.Some? ==> s.events != [] && s.handle.value.goal == s.events[0].goal)
    && (s.uuid.Some? ==> s.events != [] && s.uuid.value == s.events[0].goal)
    && (WasSent(s.events) ==> Held(s) || Attempted(s.events, s.events[0].goal))
  }

  datatype Outcome<+T> = Done(value: T) | Raised

  /** The acceptance of a sent goal, as its future reports it: not yet, an exception, no handle or a
      handle - which is always one of the goal that was sent. */
  datatype Acceptance = Pending | Failed | NoHandle | Answered(accepted: bool, readable: bool)

  /** What led to a cleanup on the way, if anything did: the acceptance came late or had still not come,
      or the controller's goal did not show, and the handle was cleaned up, which may have raised. */
  datatype First = NotYet | Late(acceptance: Acceptance) | OnHandle(raised: bool) {
    predicate Cleaned() { OnHandle? || Again() }

    /** The goal is still held after that, so it is cleaned up once more. */
    predicate Again() {
      match this
      case NotYet => false
      case Late(acceptance) => acceptance.Pending? || (acceptance.Answered? && acceptance.accepted)
      case OnHandle(raised) => raised
    }
  }

  /** What a run meets: whether the stack gets ready, the planning succeeds, the server is there and the
      sending raises - which it may do before or after the goal has left; what becomes of the acceptance, in
      time or late, whether the controller's goal is seen, and whether the rest raises. */
  datatype Env = Env(ready: Outcome<bool>, planned: bool, serverThere: bool, sendRaises: bool, leaves: bool,
                     waitRaises: bool, acceptance: Acceptance, late: Outcome<Acceptance>, seen: Outcome<bool>, runRaises: bool)
  {
    /** The pre-sent goal leaves. */
    predicate Sends() { planned && serverThere && (leaves || !sendRaises) }

    /** It is sent, and its acceptance waited for. */
    predicate Waits() { planned && serverThere && !sendRaises && !waitRaises }

    predicate Accepts() { Waits() && acceptance == Answered(true, true) }
  }

  /** The acceptance was looked for again, late. */
  function LateIn(env: Env): First {
    if env.Waits() && env.acceptance.Pending? && env.late.Done? then Late(env.late.value) else NotYet
  }

  /** On the way there was a cleanup on the handle exactly if the controller's goal did not show; else the
      acceptance came late, or nothing happened. */
  predicate FirstIn(env: Env, first: First) {
    if env.Accepts() && env.seen == Done(false) then first.OnHandle? else first == LateIn(env)
  }

  lemma MoreLefts(events: seq<Event>, e: Event)
    ensures Lefts(events + [e]) == if IsCleanup(e) then Lefts(events) + [e.left] else Lefts(events)
  {
    assert (events + [e])[..|events|] == events;
  }

  lemma MoreSent(events: seq<Event>, e: Event)
    ensures WasSent(events + [e]) <==> WasSent(events) || e.Sent?
  {
    var more := events + [e];
    assert more[|events|] == e;
    if WasSent(events) {
      var i :| 0 <= i < |events| && events[i].Sent?;
      assert more[i].Sent?;
    }
  }

  lemma MoreAttempts(events: seq<Event>, e: Event, goal: nat)
    ensures Attempted(events, goal) ==> Attempted(events + [e], goal)
  {
    if Attempted(events, goal) {
      var i, j :| 0 <= i < j < |events| && events[i] == Sent(goal) && Cleans(events[j], goal);
      assert (events + [e])[i] == Sent(goal) && Cleans((events + [e])[j], goal);
    }
  }

  lemma NowAttempted(events: seq<Event>, e: Event)
    requires OneGoal(events) && WasSent(events) && Cleans(e, events[0].goal)
    ensures Attempted(events + [e], events[0].goal)
  {
    var i :| 0 <= i < |events| && events[i].Sent?;
    assert (events + [e])[i] == Sent(events[0].goal) && (events + [e])[|events|] == e;
  }

  lemma MoreEvents(events: seq<Event>, e: Event)
    requires OneGoal(events) && events != [] && e.goal == events[0].goal && (IsCleanup(e) || (e.Sent? && |events| == 1))
    ensures OneGoal(events + [e])
    ensures Attempted(events, events[0].goal) ==> Attempted(events + [e], events[0].goal)
    ensures WasSent(events) && IsCleanup(e) ==> Attempted(events + [e], events[0].goal)
    ensures WasSent(events + [e]) <==> WasSent(events) || e.Sent?
    ensures Lefts(events + [e]) == if IsCleanup(e) then Lefts(events) + [e.left] else Lefts(events)
  {
    MoreLefts(events, e);
    MoreSent(events, e);
    MoreAttempts(events, e, events[0].goal);
    if WasSent(events) && IsCleanup(e) { NowAttempted(events, e); }
  }

  lemma CleanupIsSafe(s: Snap, e: Event)
    requires Safe(s) && s.events != [] && Cleans(e, s.events[0].goal)
    ensures Safe(s.(events := s.events + [e])) && Lefts(s.events + [e]) == Lefts(s.events) + [e.left]
    ensures WasSent(s.events + [e]) <==> WasSent(s.events)
    ensures WasSent(s.events) ==> Attempted(s.events + [e], s.events[0].goal)
  {
    MoreEvents(s.events, e);
  }

  lemma {:induction false} LeftsAre(events: seq<Event>)
    ensures true in Lefts(events) <==> exists j :: 0 <= j < |events| && IsCleanup(events[j]) && events[j].left
    ensures Lefts(events) != [] <==> exists j :: 0 <= j < |events| && IsCleanup(events[j])
  {
    if events != [] {
      var n := |events| - 1;
      LeftsAre(events[..n]);
      assert events == events[..n] + [events[n]];
    }
  }

  /** A goal that was sent: a cleanup was attempted if and only if there was one at all, and a request left
      if and only if that of some cleanup did. */
  lemma CleanupsFollow(events: seq<Event>)
    requires OneGoal(events) && WasSent(events)
    ensures Attempted(events, events[0].goal) <==> Lefts(events) != []
    ensures Requested(events, events[0].goal) <==> true in Lefts(events)
  {
    var i :| 0 <= i < |events| && events[i].Sent?;
    assert i == 1 && events[1] == Sent(events[0].goal);
    LeftsAre(events);
  }

  lemma AtMostTwo(events: seq<Event>, reaches: nat -> bool)
    requires OneGoal(events) && WasSent(events) && Attempted(events, events[0].goal) && |Lefts(events)| <= 2
    requires forall k :: 0 <= k < |Lefts(events)| ==> Lefts(events)[k] == reaches(k)
    ensures |Lefts(events)| >= 1
    ensures Requested(events, events[0].goal) <==> reaches(0) || (|Lefts(events)| == 2 && reaches(1))
  {
    var lefts := Lefts(events);
    CleanupsFollow(events);
    if |lefts| == 1 { assert lefts == [lefts[0]]; } else { assert lefts == [lefts[0], lefts[1]]; }
  }

  class Driver {
    const env: Env
    const reaches: nat -> bool  // whether the request of the k-th cleanup leaves
    var handle: Option<Handle>
    var uuid: Option<nat>
    var cleanups: nat
    ghost var events: seq<Event>
    ghost var history: seq<Snap>  // every state the driver has been in

    ghost function State(): Snap
      reads this
    {
      Snap(events, handle, uuid)
    }

    /** The driver is and always was safe. */
    ghost predicate Valid()
      reads this
    {
      && history != [] && history[|history| - 1] == State()
      && cleanups == |Lefts(events)| && (forall k :: 0 <= k < cleanups ==> Lefts(events)[k] == reaches(k))
      && forall k :: 0 <= k < |history| ==> Safe(history[k])
    }

    constructor (env: Env, reaches: nat -> bool)
      ensures Valid() && events == [] && handle.None? && uuid.None? && this.env == env && this.reaches == reaches
    {
      this.env, this.reaches, cleanups := env, reaches, 0;
      handle, uuid, events := None, None, [];
      history := [Snap([], None, None)];
    }

    // ------------------------------------------------------------ single steps

    method RetainUuid(goal: nat)
      requires Valid() && events == []
      modifies this
      ensures Valid() && events == [Assigned(goal)] && uuid == Some(goal) && old(history) <= history
      ensures handle == old(handle)
    {
      uuid := Some(goal);
      events := [Assigned(goal)];
      history := history + [State()];
    }

    method RetainHandle(h: Handle)
      requires Valid() && events != [] && h.goal == events[0].goal
      modifies `handle, `history
      ensures Valid() && handle == Some(h) && old(history) <= history
    {
      handle := Some(h);
      history := history + [State()];
    }

    /** Giving up the id is safe only while a handle is held or once a cleanup was attempted. */
    method ForgetUuid()
      requires Valid() && events != [] && (handle.Some? || Attempted(events, events[0].goal) || !WasSent(events))
      modifies `uuid, `history
      ensures Valid() && uuid.None? && old(history) <= history
    {
      uuid := None;
      history := history + [State()];
    }

    method ForgetHandle()
      requires Valid() && events != [] && (Attempted(events, events[0].goal) || !WasSent(events))
      modifies `handle, `history
      ensures Valid() && handle.None? && old(history) <= history
    {
      handle := None;
      history := history + [State()];
    }

    ghost method Happens(e: Event)
      requires Valid() && events == [Assigned(e.goal)] && e.Sent? && uuid.Some?
      modifies `events, `history
      ensures Valid() && events == old(events) + [e] && old(history) <= history
    {
      MoreEvents(events, e);
      assert Lefts(events) == [];
      events := events + [e];
      history := history + [State()];
      assert events[1] == e;
    }

    /** One attempt at a cleanup, by handle or by id: whether its request leaves. */
    method Attempt(goal: nat, byHandle: bool) returns (left: bool)
      requires Valid() && events != [] && goal == events[0].goal
      modifies `events, `history, `cleanups
      ensures Valid() && old(history) <= history && left == reaches(old(cleanups)) && cleanups == old(cleanups) + 1
      ensures events == old(events) + [if byHandle then CleanupByHandle(goal, left) else CancelByUuid(goal, left)]
      ensures WasSent(events) <==> WasSent(old(events))
      ensures WasSent(events) ==> Attempted(events, goal)
    {
      left := reaches(cleanups);
      cleanups := cleanups + 1;
      ghost var e := if byHandle then CleanupByHandle(goal, left) else CancelByUuid(goal, left);
      ghost var before := State();
      CleanupIsSafe(before, e);
      events := events + [e];
      history := history + [State()];
      assert State() == before.(events := before.events + [e]);
    }

    /** Sending may raise, before or after the goal has left. */
    method Send(goal: nat) returns (raised: bool)
      requires Valid() && events == [Assigned(goal)] && uuid == Some(goal)
      modifies `events, `history
      ensures Valid() && old(history) <= history && raised == env.sendRaises
      ensures events == old(events) + if env.leaves || !raised then [Sent(goal)] else []
      ensures WasSent(events) <==> env.leaves || !raised
    {
      raised := env.sendRaises;
      if env.leaves || !raised { Happens(Sent(goal)); }
    }

    // ---------------------------------------------------------------- cleanups

    /** Cancels and drains on the handle; may raise on the way. */
    method CleanupOnHandle(h: Handle) returns (raised: bool)
      requires Valid() && events != [] && h.goal == events[0].goal
      modifies `events, `history, `cleanups
      ensures Valid() && old(history) <= history && cleanups == old(cleanups) + 1
      ensures events == old(events) + [CleanupByHandle(h.goal, reaches(old(cleanups)))]
      ensures WasSent(events) <==> WasSent(old(events))
      ensures WasSent(events) ==> Attempted(events, events[0].goal)
    {
      var _ := Attempt(h.goal, true);
      raised := *;
    }

    /** Requests the cancellation of exactly this id, if the cancel service is there; may raise on the way,
        and tells whether the request was accepted. */
    method CancelExactly(goal: nat) returns (r: Outcome<bool>)
      requires Valid() && events != [] && goal == events[0].goal
      modifies `events, `history, `cleanups
      ensures Valid() && old(history) <= history && cleanups == old(cleanups) + 1
      ensures events == old(events) + [CancelByUuid(goal, reaches(old(cleanups)))]
      ensures r.Done? && r.value ==> reaches(old(cleanups))
      ensures WasSent(events) <==> WasSent(old(events))
      ensures WasSent(events) ==> Attempted(events, events[0].goal)
    {
      var left := Attempt(goal, false);
      var accepted: bool := *;
      var raised: bool := *;
      r := if raised then Raised else Done(left && accepted);
    }

    /** Acceptance did not arrive in time: wait a little more, which may raise, and then clean up what can
        be named. */
    method CleanupDelayedAcceptance(goal: nat) returns (raised: bool, late: Outcome<Acceptance>)
      requires Valid() && uuid == Some(goal) && handle.None? && WasSent(events)
      modifies `handle, `events, `history, `cleanups
      ensures Valid() && old(history) <= history && WasSent(events) && events[0] == old(events[0])
      ensures late == env.late && (late.Raised? ==> raised)
      ensures cleanups == old(cleanups) + if late.Done? && Late(late.value).Cleaned() then 1 else 0
      ensures
        match late
        case Done(Pending) => handle.None? && events == old(events) + [CancelByUuid(goal, reaches(old(cleanups)))]
        case Done(Answered(true, readable)) =>
          && handle == Some(Handle(goal, true, readable))
          && events == old(events) + [CleanupByHandle(goal, reaches(old(cleanups)))]
        case _ => handle.None? && events == old(events)
    {
      late, raised := env.late, true;
      match late
      case Raised => return;
      case Done(acceptance) =>
        raised := false;
        match acceptance
        case Failed =>
        case NoHandle =>
        case Answered(accepted, readable) =>
          if accepted {
            RetainHandle(Handle(goal, accepted, readable));
            raised := CleanupOnHandle(Handle(goal, accepted, readable));
          }
        case Pending =>
          var cancel := CancelExactly(goal);
          raised := cancel.Raised?;
    }

    // ------------------------------------------------------------ the pre-send

    /** Retains the id, sends the goal and waits for its acceptance. */
    method SendRetainingHandle(goal: nat) returns (r: Outcome<Handle>, ghost first: First)
      requires Valid() && events == [] && handle.None? && uuid.None? && env.planned
      modifies this
      ensures Valid() && old(history) <= history && (events == [] || events[0] == Assigned(goal))
      ensures cleanups == (if first.Cleaned() then 1 else 0) && first == LateIn(env)
      ensures (r.Done? <==> env.Accepts()) && (WasSent(events) <==> env.Sends())
      ensures first.Again() ==> Held(State())
      ensures r.Done? ==> r.value == Handle(goal, true, true) && uuid == Some(goal) && WasSent(events) && events[0] == Assigned(goal)
    {
      first := NotYet;
      assert Lefts([]) == [];
      if !env.serverThere { return Raised, first; }
      RetainUuid(goal);
      assert Lefts(events) == [];
      var raised := Send(goal);
      if raised { return Raised, first; }
      if env.waitRaises { return Raised, first; }
      match env.acceptance
      case Failed => return Raised, first;
      case NoHandle => return Raised, first;
      case Answered(accepted, readable) =>
        if !accepted || !readable { return Raised, first; }
        return Done(Handle(goal, accepted, readable)), first;
      case Pending =>
        var _, late := CleanupDelayedAcceptance(goal);
        if late.Done? { first := Late(late.value); }
        return Raised, first;
    }

    /** Plans, pre-sends the motion, and waits for its controller goal. */
    method PresendLongMotion(goal: nat) returns (raised: bool, ghost first: First)
      requires Valid() && events == [] && handle.None? && uuid.None?
      modifies this
      ensures Valid() && old(history) <= history && (events == [] || events[0] == Assigned(goal))
      ensures cleanups == (if first.Cleaned() then 1 else 0) && (first.Again() ==> Held(State()))
      ensures first.OnHandle? && !first.raised ==> !Held(State())
      ensures !raised ==> handle == Some(Handle(goal, true, true)) && uuid.None? && first == NotYet
      ensures (raised <==> !(env.Accepts() && env.seen == Done(true))) && (WasSent(events) <==> env.Sends())
      ensures FirstIn(env, first)
    {
      first := NotYet;
      assert Lefts([]) == [];
      if !env.planned { return true, first; }
      var sent;
      sent, first := SendRetainingHandle(goal);
      if sent.Raised? { return true, first; }
      RetainHandle(sent.value);
      ForgetUuid();
      raised, first := WatchController(goal);
    }

    /** Waits for the controller's goal, and cleans up if it does not show. */
    method WatchController(goal: nat) returns (raised: bool, ghost first: First)
      requires Valid() && events != [] && events[0] == Assigned(goal) && WasSent(events)
      requires handle == Some(Handle(goal, true, true)) && uuid.None? && cleanups == 0
      modifies this
      ensures Valid() && old(history) <= history && events != [] && events[0] == Assigned(goal) && WasSent(events)
      ensures raised <==> env.seen != Done(true)
      ensures if env.seen == Done(false) then first.OnHandle? else first == NotYet
      ensures cleanups == if first.OnHandle? then 1 else 0
      ensures first == OnHandle(false) || (handle == Some(Handle(goal, true, true)) && uuid.None?)
      ensures first.OnHandle? && !first.raised ==> !Held(State())
    {
      first := NotYet;
      if !env.seen.Done? { return true, first; }
      if !env.seen.value {
        ghost var failed;
        raised, failed := CleanupRetained();
        return true, OnHandle(failed);
      }
      raised := false;
    }

    /** Cleans up whatever is still held: on the handle if there is one, else by the exact id. A cleanup
        on the handle that raises leaves the handle held. */
    method CleanupRetained() returns (raised: bool, ghost failed: bool)
      requires Valid()
      modifies this
      ensures Valid() && old(history) <= history
      ensures events == old(events) + (
        if old(handle).Some? then [CleanupByHandle(old(handle).value.goal, reaches(old(cleanups)))]
        else if old(uuid).Some? then [CancelByUuid(old(uuid).value, reaches(old(cleanups)))] else [])
      ensures cleanups == old(cleanups) + if Held(old(State())) then 1 else 0
      ensures handle == if failed then old(handle) else None
      ensures old(handle).Some? ==> uuid == old(uuid)
      ensures old(handle).None? && !raised ==> uuid.None?
      ensures WasSent(events) <==> WasSent(old(events))
      ensures WasSent(events) ==> Attempted(events, events[0].goal)
    {
      failed := false;
      if handle.None? {
        if uuid.None? { return false, failed; }
        var cancel := CancelExactly(uuid.value);
        if cancel.Raised? { return true, failed; }
        if cancel.value {
          raised := *;
          if raised { return; }
        }
        ForgetUuid();
        return false, failed;
      }
      raised := CleanupOnHandle(handle.value);
      failed := raised;
      if raised { return false, failed; }
      ForgetHandle();
    }

    /** One driver run: it sends exactly if it pre-sends and gets that far, and does not raise exactly if all goes
        well. It may raise at any point - waiting for readiness, pre-sending, preparing the providers, in the run
        method - and still cleans up on the way out: of a goal that was sent one or two cleanups are attempted, two
        exactly if it was cleaned up on the way without the driver letting go of it. Without pre-sending no id is
        chosen, nothing is sent and nothing cleaned up. A cancel request naming the goal leaves before the driver
        exits if and only if it can leave at one of these attempts. */
    method Run(presends: bool, goal: nat) returns (raised: bool, ghost first: First)
      requires Valid() && events == [] && handle.None? && uuid.None?
      modifies this
      ensures Valid() && old(history) <= history
      ensures WasSent(events) ==> events[0] == Assigned(goal) && Attempted(events, goal)
      ensures WasSent(events) ==> cleanups == if first.Again() then 2 else 1
      ensures WasSent(events) ==> (Requested(events, goal) <==> reaches(0) || (first.Again() && reaches(1)))
      ensures !presends ==> events == [] && cleanups == 0
      ensures WasSent(events) <==> presends && env.ready == Done(true) && env.Sends()
      ensures raised <==> env.ready != Done(true) || (presends && !(env.Accepts() && env.seen == Done(true))) || env.runRaises
      ensures if presends && env.ready == Done(true) then FirstIn(env, first) else first == NotYet
    {
      assert Lefts([]) == [];
      raised, first := Body(presends, goal);
      HeldUnlessCleaned(first);
      var _, _ := CleanupRetained();
      if WasSent(events) { AtMostTwo(events, reaches); }
    }

    /** A goal that was sent and not cleaned up on the way is held. */
    lemma HeldUnlessCleaned(first: First)
      requires Valid() && cleanups == if first.Cleaned() then 1 else 0
      ensures WasSent(events) && !first.Cleaned() ==> Held(State())
    {
      if WasSent(events) && !first.Cleaned() && !Held(State()) {
        assert Safe(history[|history| - 1]);
        CleanupsFollow(events);
      }
    }

    method Body(presends: bool, goal: nat) returns (raised: bool, ghost first: First)
      requires Valid() && events == [] && handle.None? && uuid.None?
      modifies this
      ensures Valid() && old(history) <= history && (events == [] || events[0] == Assigned(goal))
      ensures cleanups == (if first.Cleaned() then 1 else 0) && (first.Again() ==> Held(State()))
      ensures first.OnHandle? && !first.raised ==> !Held(State())
      ensures !presends ==> events == [] && !Held(State())
      ensures WasSent(events) <==> presends && env.ready == Done(true) && env.Sends()
      ensures raised <==> env.ready != Done(true) || (presends && !(env.Accepts() && env.seen == Done(true))) || env.runRaises
      ensures if presends && env.ready == Done(true) then FirstIn(env, first) else first == NotYet
    {
      first := NotYet;
      assert Lefts([]) == [];
      if !env.ready.Done? || !env.ready.value { return true, first; }
      if presends {
        raised, first := PresendLongMotion(goal);
        if raised { return true, first; }
      }
      raised := env.runRaises;
    }
  }

  // ----------------------------------------------------------------- meaning

  /** What safety of all states of a run means: whenever a goal has been sent, the driver holds its
      handle or its id, or has already attempted to clean it up; and whatever is cleaned up is the
      one goal whose id this driver chose. */
  lemma NeverOrphaned(s: Snap, i: nat, j: nat)
    requires Safe(s) && i < |s.events| && j < |s.events| && s.events[i].Sent?
    ensures var g := s.events[i].goal;
      && ((s.handle.Some? && s.handle.value.goal == g) || s.uuid == Some(g) || Attempted(s.events, g))
      && s.events[0] == Assigned(g)
      && (IsCleanup(s.events[j]) ==> Cleans(s.events[j], g))
  {
    assert s.events[0].Assigned?;
  }
}
