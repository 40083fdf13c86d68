/** Two pollers that keep at most one service request in flight: the controller list, which is cached
    for good, and the planning scene, which is read back until it shows owned objects. */
module Requests {
  import opened Geometry

  const TTL := 5.0

  // ---------------------------------------------------------- futures and requests

  /** What a future shows. A dropped reply stays Pending for ever. */
  datatype Reply<+T> = Pending | Done(value: T) | Failed

  /** The clock, every future ever issued, tracked or abandoned, and when its reply arrived, if it has. */
  datatype Net<+T> = Net(clock: real, replies: seq<Reply<T>>, arrived: seq<real>)

  datatype End = Open | Completed(at: real) | Expired(at: real)

  /** A request: when it was asked for, the start time noted after that, and why it is no longer tracked. */
  datatype Request = Request(asked: real, started: real, end: End)

  /** The one future that is tracked, the start time noted for it, and all requests so far. */
  datatype Track = Track(future: Option<nat>, started: Option<real>, log: seq<Request>)

  // For a future that is still pending the entry in arrived means nothing yet.
  function Issue<T>(net: Net<T>, lag: real): Net<T> { Net(net.clock + Max(0.0, lag), net.replies + [Pending], net.arrived + [net.clock]) }

  function Begin<T>(net: Net<T>, t: Track, lag: real): Track {
    var started := net.clock + Max(0.0, lag);
    Track(Some(|net.replies|), Some(started), t.log + [Request(net.clock, started, Open)])
  }

  function Drop(t: Track, end: End): Track
    requires t.future.Some? && t.future.value < |t.log|
  {
    var f := t.future.value;
    Track(None, None, t.log[f := t.log[f].(end := end)])
  }

  predicate Stale<T>(net: Net<T>, t: Track) { t.started.Some? && net.clock - t.started.value > TTL }

  /** The reply of request k arrived, and by time t. */
  predicate ArrivedBy<T>(net: Net<T>, k: nat, t: real)
    requires k < |net.replies| && |net.arrived| == |net.replies|
  {
    !net.replies[k].Pending? && net.arrived[k] <= t
  }

  /** Why request k is over, by the time next: its future was seen completed, or it was tracked for more
      than the time-to-live. */
  predicate OverBy<T>(net: Net<T>, r: Request, k: nat, next: real)
    requires k < |net.replies| && |net.arrived| == |net.replies|
  {
    match r.end
    case Open => false
    case Completed(at) => ArrivedBy(net, k, at) && at <= next
    case Expired(at) => at - r.started > TTL && at <= next
  }

  /** Every request but the tracked one is over, and before the next one was asked for. */
  predicate Single<T>(net: Net<T>, t: Track) {
    && |t.log| == |net.replies| == |net.arrived|
    && (forall k {:trigger net.replies[k]} ::
          0 <= k < |net.replies| ==> net.replies[k].Pending? || ArrivedBy(net, k, net.clock))
    && (t.future.Some? <==> t.started.Some?)
    && (t.future.Some? ==>
          && |t.log| > 0 && t.future.value == |t.log| - 1 && t.log[|t.log| - 1].end.Open?
          && t.started.value == t.log[|t.log| - 1].started)
    && (forall k :: 0 <= k < |t.log| ==> t.log[k].asked <= t.log[k].started <= net.clock)
    && (forall k :: 0 <= k < |t.log| - 1 ==> OverBy(net, t.log[k], k, t.log[k + 1].asked))
    && (t.future.None? && |t.log| > 0 ==> OverBy(net, t.log[|t.log| - 1], |t.log| - 1, net.clock))
  }

  /** Consecutive requests are separated by the reply to the first, which arrived before the second was
      made, or by more than the time-to-live; so no two requests are ever in flight within it. */
  lemma Separated<T>(net: Net<T>, t: Track, k: nat)
    requires Single(net, t) && k + 1 < |t.log|
    ensures ArrivedBy(net, k, t.log[k + 1].asked) || t.log[k + 1].asked - t.log[k].started > TTL
  {
    assert OverBy(net, t.log[k], k, t.log[k + 1].asked);
  }

  lemma BeginKeeps<T>(net: Net<T>, t: Track, lag: real)
    requires Single(net, t) && t.future.None?
    ensures Single(Issue(net, lag), Begin(net, t, lag))
  {
    var net', t' := Issue(net, lag), Begin(net, t, lag);
    forall k | 0 <= k < |t'.log| - 1 ensures OverBy(net', t'.log[k], k, t'.log[k + 1].asked) {
      if k < |t.log| - 1 { assert OverBy(net, t.log[k], k, t.log[k + 1].asked); }
    }
  }

  lemma DropKeeps<T>(net: Net<T>, t: Track, end: End)
    requires Single(net, t) && t.future.Some?
    requires (end == Completed(net.clock) && !net.replies[t.future.value].Pending?) || (end == Expired(net.clock) && Stale(net, t))
    ensures Single(net, Drop(t, end))
  {
    var t' := Drop(t, end);
    forall k | 0 <= k < |t'.log| - 1 ensures OverBy(net, t'.log[k], k, t'.log[k + 1].asked) {
      assert OverBy(net, t.log[k], k, t.log[k + 1].asked);
    }
  }

  /** A future changes once: from pending to its reply. */
  ghost predicate Later<T>(net: Net<T>, net': Net<T>) {
    && net'.clock >= net.clock && |net'.replies| == |net.replies| == |net'.arrived| == |net.arrived|
    && forall k :: 0 <= k < |net.replies| ==>
      if net.replies[k].Pending? then net'.replies[k].Pending? || ArrivedBy(net', k, net'.clock)
      else net'.replies[k] == net.replies[k] && net'.arrived[k] == net.arrived[k]
  }

  lemma LaterKeeps<T>(net: Net<T>, t: Track, net': Net<T>)
    requires Single(net, t) && Later(net, net')
    ensures Single(net', t)
  {
    forall k | 0 <= k < |t.log| - 1 ensures OverBy(net', t.log[k], k, t.log[k + 1].asked) {
      assert OverBy(net, t.log[k], k, t.log[k + 1].asked);
    }
  }

  /** What the environment does between polls: a reply arrives, or time passes. */
  function Arrives<T>(net: Net<T>, id: nat, reply: Reply<T>): Net<T> {
    if id < |net.replies| == |net.arrived| && net.replies[id].Pending? then
      net.(replies := net.replies[id := reply], arrived := net.arrived[id := net.clock])
    else net
  }

  lemma ArrivesLaw<T>(net: Net<T>, id: nat, reply: Reply<T>, k: nat)
    requires |net.arrived| == |net.replies| && k < |net.replies|
    ensures var after := Arrives(net, id, reply);
      |after.arrived| == |after.replies| == |net.replies| && after.clock == net.clock
      && if k == id && net.replies[k].Pending? then after.replies[k] == reply && after.arrived[k] == net.clock
         else after.replies[k] == net.replies[k] && after.arrived[k] == net.arrived[k]
  {
  }

  function Passes<T>(net: Net<T>, dt: real): Net<T> { net.(clock := net.clock + Max(0.0, dt)) }

  // -------------------------------------------------------------- controller list

  datatype Lister = Lister(net: Net<seq<string>>, track: Track, cache: Option<seq<string>>) {
    /** At most one request in flight, and none together with a cached list; what is cached is what a
        tracked future completed with. */
    ghost predicate Valid() {
      && Single(net, track)
      && (track.future.Some? ==> cache.None?)
      && (cache.Some? ==> exists k :: 0 <= k < |net.replies| && net.replies[k] == Done(cache.value) && track.log[k].end.Completed?)
    }
  }

  function StartList(d: Lister, accepted: bool, lag: real): Lister {
    if accepted then Lister(Issue(d.net, lag), Begin(d.net, d.track, lag), d.cache) else d
  }

  /** One call of list_controllers: the new state and the returned list. */
  function CallList(d: Lister, accepted: bool, lag: real): (Lister, Option<seq<string>>)
    requires Single(d.net, d.track)
  {
    if d.track.future.None? then
      if d.cache.Some? then (d, d.cache) else (StartList(d, accepted, lag), None)
    else
      match d.net.replies[d.track.future.value]
      case Done(records) => (Lister(d.net, Drop(d.track, Completed(d.net.clock)), Some(records)), Some(records))
      case Failed => (Lister(d.net, Drop(d.track, Completed(d.net.clock)), None), None)
      case Pending =>
        if Stale(d.net, d.track) then
          (StartList(Lister(d.net, Drop(d.track, Expired(d.net.clock)), None), accepted, lag), None)
        else (d, None)
  }

  datatype ListStep = Call(accepted: bool, lag: real) | ListReply(id: nat, reply: Reply<seq<string>>) | ListPass(dt: real)

  function NextList(d: Lister, step: ListStep): Lister
    requires Single(d.net, d.track)
  {
    match step
    case Call(accepted, lag) => CallList(d, accepted, lag).0
    case ListReply(id, reply) => d.(net := Arrives(d.net, id, reply))
    case ListPass(dt) => d.(net := Passes(d.net, dt))
  }

  lemma CallKeeps(d: Lister, accepted: bool, lag: real)
    requires d.Valid()
    ensures CallList(d, accepted, lag).0.Valid()
    ensures var r := CallList(d, accepted, lag);
      r.1.Some? ==> exists k :: 0 <= k < |d.net.replies| && d.net.replies[k] == Done(r.1.value) && r.0.track.log[k].end.Completed?
  {
    if d.track.future.None? {
      if d.cache.None? && accepted { BeginKeeps(d.net, d.track, lag); }
    } else {
      var f := d.track.future.value;
      match d.net.replies[f] {
        case Done(records) =>
          DropKeeps(d.net, d.track, Completed(d.net.clock));
          assert Drop(d.track, Completed(d.net.clock)).log[f].end.Completed?;
        case Failed => DropKeeps(d.net, d.track, Completed(d.net.clock));
        case Pending =>
          if Stale(d.net, d.track) {
            DropKeeps(d.net, d.track, Expired(d.net.clock));
            if accepted { BeginKeeps(d.net, Drop(d.track, Expired(d.net.clock)), lag); }
          }
      }
    }
  }

  lemma NextListKeeps(d: Lister, step: ListStep)
    requires d.Valid()
    ensures NextList(d, step).Valid()
  {
    match step
    case Call(accepted, lag) => CallKeeps(d, accepted, lag);
    case ListReply(id, reply) => EnvKeepsList(d, Arrives(d.net, id, reply));
    case ListPass(dt) => EnvKeepsList(d, Passes(d.net, dt));
  }

  lemma EnvKeepsList(d: Lister, net: Net<seq<string>>)
    requires d.Valid() && Later(d.net, net)
    ensures d.(net := net).Valid()
  {
    LaterKeeps(d.net, d.track, net);
    if d.cache.Some? {
      var k :| 0 <= k < |d.net.replies| && d.net.replies[k] == Done(d.cache.value) && d.track.log[k].end.Completed?;
      assert net.replies[k] == Done(d.cache.value);
    }
  }

  /** What a call finds: nothing tracked and nothing cached, or a request that has been pending for more than
      the time-to-live. Then, and only then, it asks for a new list. */
  predicate AsksFor(d: Lister)
    requires Single(d.net, d.track)
  {
    match d.track.future
    case None => d.cache.None?
    case Some(f) => d.net.replies[f].Pending? && d.net.clock - d.track.log[f].started > 5.0
  }

  /** Progress: a call that finds one of these issues a request if the service takes it, now and once, and
      tracks it; every other call issues none. Earlier requests stay, but for the end of the tracked one. */
  lemma CallAsks(d: Lister, accepted: bool, lag: real)
    requires d.Valid()
    ensures var after, n := CallList(d, accepted, lag).0, |d.track.log|;
      && |after.track.log| == |after.net.replies| == n + (if accepted && AsksFor(d) then 1 else 0)
      && (accepted && AsksFor(d) ==>
            && after.track.future == Some(n) && after.net.replies[n].Pending?
            && after.track.log[n].asked == d.net.clock && after.track.log[n].started == after.net.clock)
      && (accepted && AsksFor(d) ==> after.net.clock == d.net.clock + Max(0.0, lag))
      && (!(accepted && AsksFor(d)) ==> after.net == d.net)
      && forall k :: 0 <= k < n ==>
        && after.net.replies[k] == d.net.replies[k]
        && after.track.log[k].asked == d.track.log[k].asked && after.track.log[k].started == d.track.log[k].started
        && (d.track.future != Some(k) ==> after.track.log[k] == d.track.log[k])
  {
  }

  /** What a call returns: the cached list, or the one the tracked request was answered with, and keeps it.
      The tracked request is let go as completed once it is answered, as expired once it is asked for again,
      and not before. */
  lemma CallReturns(d: Lister, accepted: bool, lag: real)
    requires d.Valid()
    ensures var r, f := CallList(d, accepted, lag), d.track.future;
      && r.1 == r.0.cache
      && (f.None? ==> r.1 == d.cache)
      && (f.Some? ==>
            && (forall records :: d.net.replies[f.value] == Done(records) ==> r.1 == Some(records))
            && (!d.net.replies[f.value].Done? ==> r.1.None?)
            && r.0.track.log[f.value].end == (
                 if !d.net.replies[f.value].Pending? then Completed(d.net.clock)
                 else if AsksFor(d) then Expired(d.net.clock) else Open)
            && (r.0.track.log[f.value].end.Open? ==> r.0 == d)
            && (!r.0.track.log[f.value].end.Open? && !(accepted && AsksFor(d)) ==> r.0.track.future.None?))
  {
  }

  /** It is never stuck: after the time-to-live, two calls the service takes return a list or issue a request. */
  lemma NeverStuck(d: Lister, dt: real, first: real, second: real)
    requires d.Valid() && dt > 5.0
    ensures var later := NextList(d, ListPass(dt));
      later.Valid() && CallList(later, true, first).0.Valid()
      && var once, twice := CallList(later, true, first), CallList(CallList(later, true, first).0, true, second);
        once.1.Some? || twice.1.Some? || |twice.0.track.log| > |d.track.log|
  {
    var later := NextList(d, ListPass(dt));
    NextListKeeps(d, ListPass(dt));
    CallKeeps(later, true, first);
    CallAsks(later, true, first);
    CallReturns(later, true, first);
    CallAsks(CallList(later, true, first).0, true, second);
  }

  /** The state after any interleaving of calls, replies and time. */
  function RunList(d: Lister, steps: seq<ListStep>): (after: Lister)
    requires d.Valid()
    ensures after.Valid()
  {
    if steps == [] then d
    else
      var before := RunList(d, steps[..|steps| - 1]);
      NextListKeeps(before, steps[|steps| - 1]);
      NextList(before, steps[|steps| - 1])
  }

  lemma FreshListIsValid(clock: real)
    ensures Lister(Net(clock, [], []), Track(None, None, []), None).Valid()
  {
  }

  /** Once a list is cached, no further request is made and every call returns it. */
  lemma {:induction false} CachedForGood(d: Lister, steps: seq<ListStep>, accepted: bool, lag: real)
    requires d.Valid() && d.cache.Some?
    ensures var after := RunList(d, steps);
      after.cache == d.cache && after.track == d.track && CallList(after, accepted, lag) == (after, d.cache)
  {
    if steps != [] { CachedForGood(d, steps[..|steps| - 1], accepted, lag); }
  }

  /** The observer, field by field, with its client's side of the middleware. */
  class Observer {
    var net: Net<seq<string>>
    var future: Option<nat>
    var started: Option<real>
    var cache: Option<seq<string>>
    ghost var log: seq<Request>

    ghost function State(): Lister
      reads this
    {
      Lister(net, Track(future, started, log), cache)
    }

    constructor (clock: real)
      ensures State() == Lister(Net(clock, [], []), Track(None, None, []), None) && State().Valid()
    {
      net, future, started, cache, log := Net(clock, [], []), None, None, None, [];
      FreshListIsValid(clock);
    }

    /** accepted tells whether the service is ready and takes the request, lag how long that lasts. */
    method ListControllers(accepted: bool, lag: real) returns (records: Option<seq<string>>)
      requires State().Valid()
      modifies this
      ensures (State(), records) == CallList(old(State()), accepted, lag)
      ensures State().Valid()
    {
      CallKeeps(State(), accepted, lag);
      if future.None? {
        if cache.Some? { return cache; }
        StartRequest(accepted, lag);
        return None;
      }
      var reply := net.replies[future.value];
      if !reply.Pending? {
        cache := if reply.Done? then Some(reply.value) else None;
        log := Drop(Track(future, started, log), Completed(net.clock)).log;
        future, started := None, None;
        return cache;
      }
      if started.Some? && net.clock - started.value > TTL {
        log := Drop(Track(future, started, log), Expired(net.clock)).log;
        future, started, cache := None, None, None;
        StartRequest(accepted, lag);
      }
      return None;
    }

    method StartRequest(accepted: bool, lag: real)
      requires future.None?
      modifies this
      ensures State() == StartList(old(State()), accepted, lag)
    {
      if !accepted { return; }
      log := Begin(net, Track(future, started, log), lag).log;
      future := Some(|net.replies|);
      net := Issue(net, lag);
      started := Some(net.clock);
    }
  }

  // --------------------------------------------------------------- scene readback

  datatype Scene = Scene(owned: seq<string>, attached: seq<string>)

  /** A reply is Done(None) if it carries no scene, and Failed if it raises or cannot be normalized. */
  datatype Reader = Reader(net: Net<Option<Scene>>, track: Track, done: bool, latest: Option<Scene>) {
    ghost predicate Valid() { Single(net, track) && (done ==> track.future.None? && latest.Some?) }

    /** Nothing is asked for any more. */
    predicate Latched() { done && latest.Some? && latest.value.owned != [] }
  }

  /** One step of the readback. */
  function Readback(d: Reader, accepted: bool, lag: real): Reader
    requires Single(d.net, d.track)
  {
    if d.Latched() then d
    else if d.track.future.None? then
      if accepted then Reader(Issue(d.net, lag), Begin(d.net, d.track, lag), false, d.latest) else d.(done := false)
    else
      match d.net.replies[d.track.future.value]
      case Done(Some(scene)) => Reader(d.net, Drop(d.track, Completed(d.net.clock)), true, Some(scene))
      case Done(None) => Reader(d.net, Drop(d.track, Completed(d.net.clock)), false, d.latest)
      case Failed => Reader(d.net, Drop(d.track, Completed(d.net.clock)), false, d.latest)
      case Pending =>
        if Stale(d.net, d.track) then Reader(d.net, Drop(d.track, Expired(d.net.clock)), false, d.latest)
        else d.(done := false)
  }

  /** A scene message from the topic. An empty diff says that nothing changed, not that nothing is there. */
  datatype Message = Message(valid: bool, isDiff: bool, scene: Scene)

  function Heard(latest: Option<Scene>, m: Message): Option<Scene> {
    if !m.valid then latest
    else if latest.Some? && m.isDiff && m.scene.owned == [] && m.scene.attached == [] then
      Some(m.scene.(owned := latest.value.owned))
    else Some(m.scene)
  }

  datatype ReadStep = Poll(accepted: bool, lag: real) | SceneReply(id: nat, reply: Reply<Option<Scene>>)
                    | ReadPass(dt: real) | Topic(m: Message)

  function NextRead(d: Reader, step: ReadStep): Reader
    requires Single(d.net, d.track)
  {
    match step
    case Poll(accepted, lag) => Readback(d, accepted, lag)
    case SceneReply(id, reply) => d.(net := Arrives(d.net, id, reply))
    case ReadPass(dt) => d.(net := Passes(d.net, dt))
    case Topic(m) => d.(latest := Heard(d.latest, m))
  }

  lemma PollKeeps(d: Reader, accepted: bool, lag: real)
    requires d.Valid()
    ensures Readback(d, accepted, lag).Valid()
  {
    if d.track.future.None? {
      if !d.Latched() && accepted { BeginKeeps(d.net, d.track, lag); }
    } else if !d.net.replies[d.track.future.value].Pending? {
      DropKeeps(d.net, d.track, Completed(d.net.clock));
    } else if Stale(d.net, d.track) {
      DropKeeps(d.net, d.track, Expired(d.net.clock));
    }
  }

  lemma NextReadKeeps(d: Reader, step: ReadStep)
    requires d.Valid()
    ensures NextRead(d, step).Valid()
  {
    match step
    case Poll(accepted, lag) => PollKeeps(d, accepted, lag);
    case SceneReply(id, reply) => LaterKeeps(d.net, d.track, Arrives(d.net, id, reply));
    case ReadPass(dt) => LaterKeeps(d.net, d.track, Passes(d.net, dt));
    case Topic(m) =>
  }

  /** A step asks unless it is latched, and then only with nothing tracked. */
  predicate ReadsBack(d: Reader) { !(d.done && d.latest.Some? && d.latest.value.owned != []) && d.track.future.None? }

  /** Progress of the readback: such a step issues a request if the service takes it, and every other step none. */
  lemma ReadbackAsks(d: Reader, accepted: bool, lag: real)
    requires d.Valid()
    ensures var after, n := Readback(d, accepted, lag), |d.track.log|;
      && |after.track.log| == |after.net.replies| == n + (if accepted && ReadsBack(d) then 1 else 0)
      && (accepted && ReadsBack(d) ==>
            && after.track.future == Some(n) && after.net.replies[n].Pending?
            && after.track.log[n].asked == d.net.clock && after.track.log[n].started == after.net.clock
            && after.net.clock == d.net.clock + Max(0.0, lag))
      && (!(accepted && ReadsBack(d)) ==> after.net == d.net)
      && forall k :: 0 <= k < n ==>
        && after.net.replies[k] == d.net.replies[k]
        && after.track.log[k].asked == d.track.log[k].asked && after.track.log[k].started == d.track.log[k].started
        && (d.track.future != Some(k) ==> after.track.log[k] == d.track.log[k])
  {
  }

  /** What a step makes of a tracked request: a scene it was answered with is the latest one and latches; any
      other answer, or none within the time-to-live, lets it go. A latched step changes nothing. */
  lemma ReadbackTakes(d: Reader, accepted: bool, lag: real)
    requires d.Valid()
    ensures var after, f := Readback(d, accepted, lag), d.track.future;
      && (d.done && d.latest.Some? && d.latest.value.owned != [] ==> after == d)
      && (f.None? ==> after.latest == d.latest && (after.done ==> d.done && d.latest.value.owned != []))
      && (f.Some? ==>
            var reply, late := d.net.replies[f.value], d.net.clock - d.track.log[f.value].started > 5.0;
            && (forall scene :: reply == Done(Some(scene)) ==> after.latest == Some(scene))
            && (reply.Done? && reply.value.Some? <==> after.done)
            && (!after.done ==> after.latest == d.latest)
            && (after.track.future == (if reply.Pending? && !late then f else None))
            && after.track.log[f.value].end == (
                 if !reply.Pending? then Completed(d.net.clock) else if late then Expired(d.net.clock) else Open))
  {
  }

  /** It is never stuck either: after the time-to-live, two steps the service takes end latched or issue a request. */
  lemma ReadbackNeverStuck(d: Reader, dt: real, first: real, second: real)
    requires d.Valid() && dt > 5.0
    ensures var later := NextRead(d, ReadPass(dt));
      later.Valid() && Readback(later, true, first).Valid()
      && var once, twice := Readback(later, true, first), Readback(Readback(later, true, first), true, second);
        twice.Latched() || |twice.track.log| > |d.track.log|
  {
    var later := NextRead(d, ReadPass(dt));
    NextReadKeeps(d, ReadPass(dt));
    PollKeeps(later, true, first);
    ReadbackAsks(later, true, first);
    ReadbackTakes(later, true, first);
    ReadbackAsks(Readback(later, true, first), true, second);
  }

  function RunRead(d: Reader, steps: seq<ReadStep>): (after: Reader)
    requires d.Valid()
    ensures after.Valid()
  {
    if steps == [] then d
    else
      var before := RunRead(d, steps[..|steps| - 1]);
      NextReadKeeps(before, steps[|steps| - 1]);
      NextRead(before, steps[|steps| - 1])
  }

  lemma FreshReadIsValid(clock: real)
    ensures Reader(Net(clock, [], []), Track(None, None, []), false, None).Valid()
  {
  }

  /** A message that does not empty the owned ids: unreadable, with owned ids, or an empty diff. */
  predicate KeepsOwned(m: Message) { !m.valid || m.scene.owned != [] || (m.isDiff && m.scene.attached == []) }

  /** A latched readback is unlatched by exactly the messages that empty the owned ids. */
  lemma StaysLatched(d: Reader, step: ReadStep)
    requires d.Valid() && d.Latched()
    ensures NextRead(d, step).Latched() <==> (step.Topic? ==> KeepsOwned(step.m))
    ensures NextRead(d, step).track == d.track
  {
  }

  /** While no message empties the owned ids, a latched readback never asks again. */
  lemma {:induction false} LatchedWhileOwned(d: Reader, steps: seq<ReadStep>)
    requires d.Valid() && d.Latched()
    requires forall i :: 0 <= i < |steps| && steps[i].Topic? ==> KeepsOwned(steps[i].m)
    ensures RunRead(d, steps).Latched() && RunRead(d, steps).track == d.track
  {
    if steps != [] {
      var n := |steps| - 1;
      LatchedWhileOwned(d, steps[..n]);
      StaysLatched(RunRead(d, steps[..n]), steps[n]);
    }
  }

  /** The executor's readback fields, with its client's side of the middleware. */
  class Executor {
    var net: Net<Option<Scene>>
    var future: Option<nat>
    var started: Option<real>
    var done: bool
    var latest: Option<Scene>
    ghost var log: seq<Request>

    ghost function State(): Reader
      reads this
    {
      Reader(net, Track(future, started, log), done, latest)
    }

    constructor (clock: real)
      ensures State() == Reader(Net(clock, [], []), Track(None, None, []), false, None) && State().Valid()
    {
      net, future, started, done, latest, log := Net(clock, [], []), None, None, false, None, [];
      FreshReadIsValid(clock);
    }

    method StepPlanningSceneReadback(accepted: bool, lag: real)
      requires State().Valid()
      modifies this
      ensures State() == Readback(old(State()), accepted, lag) && State().Valid()
    {
      PollKeeps(State(), accepted, lag);
      if done {
        var owned := if latest.Some? then latest.value.owned else [];
        if owned != [] { return; }
        done := false;
      }
      if future.None? {
        if !accepted { return; }
        log := Begin(net, Track(future, started, log), lag).log;
        future := Some(|net.replies|);
        net := Issue(net, lag);
        started := Some(net.clock);
        return;
      }
      var reply := net.replies[future.value];
      if !reply.Pending? {
        log := Drop(Track(future, started, log), Completed(net.clock)).log;
        future, started := None, None;
        if reply.Failed? || reply.value.None? { return; }
        latest, done := reply.value, true;
      }
      if started.Some? && net.clock - started.value > TTL {
        log := Drop(Track(future, started, log), Expired(net.clock)).log;
        future, started := None, None;
      }
    }
  }
}
