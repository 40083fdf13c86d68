/** What follows when the join of keyframes and requests leaves no diagnostics. */
module CaptureLaws {
  import opened Geometry
  import opened Capture

  // -------------------------------------------------- one keyframe and its request

  /** The keyframe's own account of the request's time, frame and latency is consistent, and both name
      the same positive execution step. */
  predicate Agrees(r: Request, k: Keyframe)
    requires WellFormed(k)
  {
    && (Number(r.time).Some? ==>
          Number(k.requestedTime).Some? && !Exceeds(Number(k.requestedTime).value, Number(r.time).value, Tolerance(k)))
    && k.requestedFrame.Int? && (ExpectedFrame(k).Some? ==> k.requestedFrame.i == ExpectedFrame(k).value)
    && k.latency.Int? && 0 <= k.latency.i <= MAX_CAPTURE_LATENCY_FRAMES
    && k.frame.i == k.requestedFrame.i + k.latency.i
    && k.execution.Int? && k.execution.i > 0 && r.source == k.execution
  }

  lemma SoftIffAgrees(r: Request, k: Keyframe)
    requires WellFormed(k)
    ensures SoftCodes(r, k) == [] <==> Agrees(r, k)
  {
    var c1 := Added([], TimeCode(r, k));
    var c2 := Added(c1, FrameCode(k));
    var c3 := Added(c2, LatencyCode(k));
    var c4 := Added(c3, ExecutionCode(k));
    assert SoftCodes(r, k) == Added(c4, SourceCode(r, k));
  }

  /** The captured frame is at most MAX_CAPTURE_LATENCY_FRAMES after the frame nearest to the time the
      keyframe says was requested. */
  lemma FrameBound(r: Request, k: Keyframe)
    requires WellFormed(k) && Agrees(r, k) && Finite(k.requestedTime).Some? && Positive(k.dt).Some?
    ensures var q := Finite(k.requestedTime).value / Positive(k.dt).value;
      q - 0.5 < k.frame.i as real <= q + 0.5 + MAX_CAPTURE_LATENCY_FRAMES as real
  {
  }

  lemma DivideShift(t: real, u: real, tol: real, dt: real)
    requires dt > 0.0 && -tol <= t - u <= tol
    ensures -(tol / dt) <= t / dt - u / dt <= tol / dt
  {
    TimesQuotient(t, dt);
    TimesQuotient(u, dt);
    TimesQuotient(tol, dt);
    var p, q, r := t / dt, u / dt, tol / dt;
    assert Times(p, dt) - Times(q, dt) == Times(p - q, dt);
    assert Times(-r, dt) == -Times(r, dt);
    if p - q > r { TimesMore(r, p - q, dt); }
    if p - q < -r { TimesMore(p - q, -r, dt); }
  }

  lemma TimesMore(a: real, b: real, c: real)
    requires a < b && c > 0.0
    ensures Times(a, c) < Times(b, c)
  {
    TimesPositive(b - a, c);
  }

  /** The same bound against the time in the request itself, wider on either side by the tolerance of the
      time check - half a frame, unless a frame is shorter than two microseconds. */
  lemma RequestFrameBound(r: Request, k: Keyframe)
    requires WellFormed(k) && Agrees(r, k) && Finite(k.requestedTime).Some? && Finite(r.time).Some?
    requires Positive(k.dt).Some?
    ensures var q, slack := Finite(r.time).value / Positive(k.dt).value, Tolerance(k) / Positive(k.dt).value;
      q - 0.5 - slack < k.frame.i as real <= q + 0.5 + slack + MAX_CAPTURE_LATENCY_FRAMES as real
  {
    FrameBound(r, k);
    DivideShift(Finite(k.requestedTime).value, Finite(r.time).value, Tolerance(k), Positive(k.dt).value);
  }

  /** A requested time that is not a number is compared with nothing: whatever time the request has,
      the keyframe agrees with it as well. The bounds above do need a number. */
  lemma NotANumberAgrees(r: Request, k: Keyframe, t: Num)
    requires WellFormed(k) && Agrees(r, k) && k.requestedTime == Float(NaN)
    ensures Agrees(r.(time := Float(t)), k) && ExpectedFrame(k).None?
  {
  }

  /** Two times the check lets through as equal. */
  predicate Indistinct(a: Num, b: Num, tol: real) {
    a.NaN? || b.NaN? || (a.Infinite? && a == b) || (a.Fin? && b.Fin? && Abs(a.r - b.r) <= tol)
  }

  /** When the times are let through: the request has no numeric time, or the keyframe names one too and
      either is not a number, both are the same infinity, or they are within the tolerance. */
  lemma TimeCheck(r: Request, k: Keyframe)
    ensures TimeCode(r, k).None? <==>
      Number(r.time).None?
      || (Number(k.requestedTime).Some? && Indistinct(Number(k.requestedTime).value, Number(r.time).value, Tolerance(k)))
  {
  }

  // ------------------------------------------------------------------ key tables

  /** Exactly one record has the key. */
  ghost predicate ExactlyOne<T>(ts: seq<T>, key: T -> Option<Key>, kk: Key) {
    exists i :: OneAt(ts, key, kk, i)
  }

  ghost predicate OneAt<T>(ts: seq<T>, key: T -> Option<Key>, kk: Key, i: int) {
    0 <= i < |ts| && key(ts[i]) == Some(kk) && forall j :: 0 <= j < |ts| && key(ts[j]) == Some(kk) ==> j == i
  }

  lemma {:induction false} KeyTableLaw(ts: seq<Truth>, key: Truth -> Option<Key>, code: Code, kk: Key)
    requires KeyCodes(ts, key, code) == []
    ensures kk in KeyTable(ts, key) ==> ExactlyOne(ts, key, kk)
    ensures kk !in KeyTable(ts, key) ==> forall j :: 0 <= j < |ts| ==> key(ts[j]) != Some(kk)
  {
    if ts != [] {
      var n := |ts| - 1;
      var before := ts[..n];
      KeyTableLaw(before, key, code, kk);
      assert forall j :: 0 <= j < n ==> ts[j] == before[j];
      if kk in KeyTable(ts, key) {
        if kk in KeyTable(before, key) {
          var i :| OneAt(before, key, kk, i);
          assert OneAt(ts, key, kk, i);
        } else {
          assert OneAt(ts, key, kk, n);
        }
      }
    }
  }

  // -------------------------------------------------------------- request tables

  /** The only driving line with this number. */
  predicate OnlyRequest(lines: seq<Line<Request>>, s: int, i: int) {
    && 0 <= i < |lines| && Drives(lines[i]) && lines[i].record.sequence.i == s
    && forall j :: 0 <= j < |lines| && Drives(lines[j]) && lines[j].record.sequence.i == s ==> j == i
  }

  lemma {:induction false} RequestTableLaw(lines: seq<Line<Request>>, s: int)
    requires DuplicateCodes(lines) == []
    ensures s in RequestTable(lines) ==> exists i :: OnlyRequest(lines, s, i) && RequestTable(lines)[s] == lines[i].record
    ensures s !in RequestTable(lines) ==> forall j :: 0 <= j < |lines| && Drives(lines[j]) ==> lines[j].record.sequence.i != s
  {
    if lines != [] {
      var n := |lines| - 1;
      var before := lines[..n];
      RequestTableLaw(before, s);
      assert forall j :: 0 <= j < n ==> lines[j] == before[j];
      if s in RequestTable(lines) {
        if s in RequestTable(before) {
          var i :| OnlyRequest(before, s, i) && RequestTable(before)[s] == before[i].record;
          assert OnlyRequest(lines, s, i);
        } else {
          assert OnlyRequest(lines, s, n);
        }
      }
    }
  }

  lemma {:induction false} AllRecognized(lines: seq<Line<Request>>)
    requires RequestLineCodes(lines) == []
    ensures forall i :: 0 <= i < |lines| ==> RequestCode(lines[i]).None?
  {
    if lines != [] { AllRecognized(lines[..|lines| - 1]); }
  }

  lemma {:induction false} AllEntries(lines: seq<Line<Keyframe>>)
    requires KeyLineCodes(lines) == []
    ensures |Frames(lines)| == |lines| && forall i :: 0 <= i < |lines| ==> lines[i] == Entry(Frames(lines)[i])
  {
    if lines != [] { AllEntries(lines[..|lines| - 1]); }
  }

  // ------------------------------------------------------------------- one step

  /** The image is a file of a known attempt of the keyframe's scenario. */
  predicate Placed(w: World, dir: string, k: Keyframe)
    requires WellFormed(k)
  {
    ImageCode(w.image(PathOf(dir, k)), k.gate.s).None?
  }

  function HomeOf(w: World, dir: string, k: Keyframe): string
    requires WellFormed(k) && Placed(w, dir, k)
  {
    w.image(PathOf(dir, k)).home.value
  }

  /** Everything that has to hold for a keyframe to be bound without a diagnostic. */
  predicate Good(w: World, dir: string, requests: map<int, Request>, st: Join, k: Keyframe) {
    && WellFormed(k) && Identity(dir, k.event.s, k.camera.s) !in st.owners
    && k.sequence.i in requests && Matches(requests[k.sequence.i], k) && Agrees(requests[k.sequence.i], k)
    && Placed(w, dir, k)
    && (HomeOf(w, dir, k) in st.homes || TableCodes(w, HomeOf(w, dir, k)) == [])
    && PhysicsBound(w, HomeOf(w, dir, k), k) && PathOf(dir, k) !in st.bindings
  }

  function Joined(w: World, dir: string, st: Join, k: Keyframe): Join
    requires WellFormed(k) && Placed(w, dir, k)
  {
    Join(st.bindings[PathOf(dir, k) := BindingOf(w, dir, k)], st.owners + {Identity(dir, k.event.s, k.camera.s)},
         st.covered + {k.sequence.i}, st.homes + {HomeOf(w, dir, k)}, st.diags)
  }

  /** No diagnostic is lost. */
  predicate Grows(st: Join, after: Join) { |after.diags| >= |st.diags| }

  lemma JoinImageGood(w: World, dir: string, st: Join, k: Keyframe)
    requires WellFormed(k)
    ensures Grows(st, JoinImage(w, dir, st, k))
    ensures |JoinImage(w, dir, st, k).diags| == |st.diags| <==>
      && Placed(w, dir, k) && (HomeOf(w, dir, k) in st.homes || TableCodes(w, HomeOf(w, dir, k)) == [])
      && PhysicsBound(w, HomeOf(w, dir, k), k) && PathOf(dir, k) !in st.bindings
    ensures |JoinImage(w, dir, st, k).diags| == |st.diags| ==>
      JoinImage(w, dir, st, k) == st.(bindings := st.bindings[PathOf(dir, k) := BindingOf(w, dir, k)],
                                      homes := st.homes + {HomeOf(w, dir, k)})
  {
  }

  /** A step adds no diagnostic exactly for a good keyframe, and then binds it. */
  lemma StepGood(w: World, dir: string, requests: map<int, Request>, st: Join, k: Keyframe)
    ensures Grows(st, JoinStep(w, dir, requests, st, k))
    ensures |JoinStep(w, dir, requests, st, k).diags| == |st.diags| <==> Good(w, dir, requests, st, k)
    ensures Good(w, dir, requests, st, k) ==> JoinStep(w, dir, requests, st, k) == Joined(w, dir, st, k)
  {
    if WellFormed(k) && Identity(dir, k.event.s, k.camera.s) !in st.owners && k.sequence.i in requests
       && Matches(requests[k.sequence.i], k) {
      var r, id := requests[k.sequence.i], Identity(dir, k.event.s, k.camera.s);
      var said := Say(st.(owners := st.owners + {id}, covered := st.covered + {k.sequence.i}), SoftCodes(r, k));
      SoftIffAgrees(r, k);
      JoinImageGood(w, dir, said, k);
      assert JoinStep(w, dir, requests, st, k) == JoinImage(w, dir, said, k);
    }
  }

  // -------------------------------------------------------------- one directory

  predicate NoRepeats<T(==)>(xs: seq<T>) { forall i, j :: 0 <= i < j < |xs| ==> xs[i] != xs[j] }

  function PathsOf(dir: string, frames: seq<Keyframe>): seq<string> {
    seq(|frames|, i requires 0 <= i < |frames| => if WellFormed(frames[i]) then PathOf(dir, frames[i]) else [])
  }

  /** What a binding says, field by field: event, scenario, camera, number, frame and time are the keyframe's
      own, the attempt is the image's, and the execution request is the event of its request. */
  predicate Says(w: World, dir: string, r: Request, k: Keyframe, b: Binding)
    requires WellFormed(k)
  {
    && Str(b.event) == k.event && Str(b.scenario) == k.gate && Str(b.camera) == k.camera
    && Int(b.sequence) == k.sequence && Int(b.frame) == k.frame && Finite(k.time) == Some(b.time)
    && w.image(PathOf(dir, k)).attempt == Some(b.attempt) && Str(b.request) == r.event
  }

  lemma BindingSays(w: World, dir: string, r: Request, k: Keyframe)
    requires WellFormed(k) && Placed(w, dir, k) && Matches(r, k)
    ensures Says(w, dir, r, k, BindingOf(w, dir, k))
  {
  }

  /** k is bound: by its path, to the matching request of its own directory, and to one raw and one
      evaluator record of its attempt. */
  ghost predicate Bound(w: World, dir: string, requests: map<int, Request>, k: Keyframe, bindings: map<string, Binding>) {
    && WellFormed(k) && Placed(w, dir, k)
    && PathOf(dir, k) in bindings && k.sequence.i in requests
    && Says(w, dir, requests[k.sequence.i], k, bindings[PathOf(dir, k)])
    && Matches(requests[k.sequence.i], k) && Agrees(requests[k.sequence.i], k)
    && TruthBound(w, HomeOf(w, dir, k), k)
  }

  ghost predicate TruthBound(w: World, home: string, k: Keyframe)
    requires WellFormed(k)
  {
    && PhysicsBound(w, home, k)
    && ExactlyOne(w.raw(home), RawKey, Key(k.gate.s, k.frame.i))
    && ExactlyOne(w.evaluator(home), EvaluatorKey, Key(k.gate.s, k.frame.i))
  }

  lemma TruthIsBound(w: World, home: string, k: Keyframe)
    requires WellFormed(k) && PhysicsBound(w, home, k) && TableCodes(w, home) == []
    ensures TruthBound(w, home, k)
  {
    KeyTableLaw(w.raw(home), RawKey, DuplicatePhysicsKey, Key(k.gate.s, k.frame.i));
    KeyTableLaw(w.evaluator(home), EvaluatorKey, DuplicateEvaluatorKey, Key(k.gate.s, k.frame.i));
  }

  /** What a join without diagnostics so far keeps. */
  predicate Clean(w: World, st: Join, paths: seq<string>) {
    && st.diags == [] && NoRepeats(paths) && (forall p :: p in paths ==> p in st.bindings)
    && (forall p :: p in st.bindings ==> p in paths)
    && forall home :: home in st.homes ==> TableCodes(w, home) == []
  }

  lemma CleanStep(w: World, dir: string, requests: map<int, Request>, st: Join, k: Keyframe, paths: seq<string>, after: Join)
    requires after == JoinStep(w, dir, requests, st, k) && after.diags == [] && (st.diags == [] ==> Clean(w, st, paths))
    ensures st.diags == [] && Good(w, dir, requests, st, k) && after == Joined(w, dir, st, k)
    ensures Clean(w, after, paths + [PathOf(dir, k)]) && Bound(w, dir, requests, k, after.bindings)
  {
    StepGood(w, dir, requests, st, k);
    TruthIsBound(w, HomeOf(w, dir, k), k);
    BindingSays(w, dir, requests[k.sequence.i], k);
  }

  lemma BoundStays(w: World, dir: string, requests: map<int, Request>, k: Keyframe, a: map<string, Binding>,
                   b: map<string, Binding>)
    requires Bound(w, dir, requests, k, a) && forall p :: p in a ==> p in b && b[p] == a[p]
    ensures Bound(w, dir, requests, k, b)
  {
  }

  predicate Within(a: map<string, Binding>, b: map<string, Binding>) { forall p :: p in a ==> p in b && b[p] == a[p] }

  function Numbers(frames: seq<Keyframe>): set<int> {
    set k | k in frames && k.sequence.Int? :: k.sequence.i
  }

  /** The first n frames are bound. */
  ghost predicate BoundUpTo(w: World, dir: string, requests: map<int, Request>, frames: seq<Keyframe>, n: nat,
                            bindings: map<string, Binding>)
    requires n <= |frames|
  {
    forall i :: 0 <= i < n ==> Bound(w, dir, requests, frames[i], bindings)
  }

  /** No two of the first n frames have the same event and camera; owners knows those of each. */
  predicate Owned(dir: string, frames: seq<Keyframe>, n: nat, owners: set<Identity>)
    requires n <= |frames|
  {
    && (forall i :: 0 <= i < n ==> OwnedAt(dir, frames[i], owners))
    && (forall i, j :: 0 <= i < j < n ==> frames[i].event != frames[j].event || frames[i].camera != frames[j].camera)
  }

  predicate OwnedAt(dir: string, k: Keyframe, owners: set<Identity>) {
    k.event.Str? && k.camera.Str? && Identity(dir, k.event.s, k.camera.s) in owners
  }

  /** After the first n frames of a directory. */
  ghost predicate FramesDone(w: World, dir: string, requests: map<int, Request>, frames: seq<Keyframe>, n: nat, start: Join,
                             st: Join)
    requires n <= |frames|
  {
    && Within(start.bindings, st.bindings) && BoundUpTo(w, dir, requests, frames, n, st.bindings)
    && Owned(dir, frames, n, st.owners) && st.covered == start.covered + Numbers(frames[..n])
  }

  lemma NumbersAppend(frames: seq<Keyframe>, n: nat)
    requires n < |frames| && frames[n].sequence.Int?
    ensures Numbers(frames[..n + 1]) == Numbers(frames[..n]) + {frames[n].sequence.i}
  {
    assert frames[..n + 1] == frames[..n] + [frames[n]];
  }

  lemma BoundNext(w: World, dir: string, requests: map<int, Request>, frames: seq<Keyframe>, n: nat,
                  a: map<string, Binding>, b: map<string, Binding>)
    requires n < |frames|
    ensures BoundUpTo(w, dir, requests, frames, n, a) && Within(a, b) && Bound(w, dir, requests, frames[n], b) ==>
      BoundUpTo(w, dir, requests, frames, n + 1, b)
  {
    if BoundUpTo(w, dir, requests, frames, n, a) && Within(a, b) && Bound(w, dir, requests, frames[n], b) {
      forall i | 0 <= i < n + 1 ensures Bound(w, dir, requests, frames[i], b) {
        if i < n { BoundStays(w, dir, requests, frames[i], a, b); }
      }
    }
  }

  lemma OwnedNext(dir: string, frames: seq<Keyframe>, n: nat, owners: set<Identity>, after: set<Identity>)
    requires n < |frames| && Owned(dir, frames, n, owners) && frames[n].event.Str? && frames[n].camera.Str?
    requires Identity(dir, frames[n].event.s, frames[n].camera.s) !in owners
    requires after == owners + {Identity(dir, frames[n].event.s, frames[n].camera.s)}
    ensures Owned(dir, frames, n + 1, after)
  {
    forall i | 0 <= i < n ensures frames[i].event != frames[n].event || frames[i].camera != frames[n].camera {
      assert OwnedAt(dir, frames[i], owners);
    }
  }

  /** What one bound frame changes, as far as the other frames are concerned. */
  predicate Takes(w: World, dir: string, k: Keyframe, st: Join, after: Join) {
    && k.sequence.Int? && k.event.Str? && k.camera.Str? && Within(st.bindings, after.bindings)
    && Identity(dir, k.event.s, k.camera.s) !in st.owners
    && after.owners == st.owners + {Identity(dir, k.event.s, k.camera.s)} && after.covered == st.covered + {k.sequence.i}
  }

  lemma GoodTakes(w: World, dir: string, requests: map<int, Request>, st: Join, k: Keyframe)
    requires Good(w, dir, requests, st, k)
    ensures Takes(w, dir, k, st, Joined(w, dir, st, k))
  {
  }

  lemma FramesDoneNext(w: World, dir: string, requests: map<int, Request>, frames: seq<Keyframe>, n: nat, start: Join,
                       st: Join, after: Join)
    requires n < |frames| && FramesDone(w, dir, requests, frames, n, start, st)
    requires Takes(w, dir, frames[n], st, after) && Bound(w, dir, requests, frames[n], after.bindings)
    ensures FramesDone(w, dir, requests, frames, n + 1, start, after)
  {
    NumbersAppend(frames, n);
    BoundNext(w, dir, requests, frames, n, st.bindings, after.bindings);
    OwnedNext(dir, frames, n, st.owners, after.owners);
  }

  /** What holds at the start and is kept by every step without diagnostics holds after n such steps;
      and the start has no diagnostics either, as no step removes any. */
  lemma {:induction false} KeptByFrames(step: (Join, Keyframe) -> Join, start: Join, frames: seq<Keyframe>, n: nat,
                                        inv: (nat, Join) -> bool)
    requires n <= |frames| && JoinFrames(step, start, frames, n).diags == []
    requires forall st, k {:trigger step(st, k)} :: step(st, k).diags == [] ==> st.diags == []
    requires start.diags == [] ==> inv(0, start)
    requires forall m: nat, st {:trigger inv(m, st)} :: m < |frames| && inv(m, st) && step(st, frames[m]).diags == [] ==>
      inv(m + 1, step(st, frames[m]))
    ensures start.diags == [] && inv(n, JoinFrames(step, start, frames, n))
  {
    if n > 0 { KeptByFrames(step, start, frames, n - 1, inv); }
  }

  ghost predicate FramesInv(w: World, dir: string, requests: map<int, Request>, frames: seq<Keyframe>, start: Join,
                            paths: seq<string>, m: nat, st: Join)
  {
    m <= |frames| && FramesDone(w, dir, requests, frames, m, start, st) && Clean(w, st, paths + PathsOf(dir, frames[..m]))
  }

  lemma FramesBound(w: World, d: Dir, start: Join, frames: seq<Keyframe>, paths: seq<string>, st: Join)
    requires st == JoinFrames(StepIn(w, d), start, frames, |frames|) && st.diags == []
    requires start.diags == [] ==> Clean(w, start, paths)
    ensures start.diags == [] && FramesInv(w, d.name, TableOf(d), frames, start, paths, |frames|, st)
  {
    var dir, requests, step := d.name, TableOf(d), StepIn(w, d);
    var inv: (nat, Join) -> bool := (m: nat, at: Join) => FramesInv(w, dir, requests, frames, start, paths, m, at);
    if start.diags == [] { NoFrames(w, dir, requests, start, frames, paths); }
    forall at, k | step(at, k).diags == [] ensures at.diags == [] { StepGood(w, dir, requests, at, k); }
    forall m: nat, at | m < |frames| && inv(m, at) && step(at, frames[m]).diags == []
      ensures inv(m + 1, step(at, frames[m]))
    {
      FramesStep(w, dir, requests, start, frames, m, paths, at, step(at, frames[m]));
    }
    KeptByFrames(step, start, frames, |frames|, inv);
  }

  lemma NoFrames(w: World, dir: string, requests: map<int, Request>, start: Join, frames: seq<Keyframe>, paths: seq<string>)
    requires Clean(w, start, paths)
    ensures FramesDone(w, dir, requests, frames, 0, start, start) && Clean(w, start, paths + PathsOf(dir, frames[..0]))
  {
    assert paths + PathsOf(dir, frames[..0]) == paths;
    assert frames[..0] == [];
  }

  lemma FramesStep(w: World, dir: string, requests: map<int, Request>, start: Join, frames: seq<Keyframe>, n: nat,
                   paths: seq<string>, before: Join, st: Join)
    requires n < |frames| && st == JoinStep(w, dir, requests, before, frames[n]) && st.diags == []
    requires FramesDone(w, dir, requests, frames, n, start, before)
    requires Clean(w, before, paths + PathsOf(dir, frames[..n]))
    ensures FramesDone(w, dir, requests, frames, n + 1, start, st)
    ensures Clean(w, st, paths + PathsOf(dir, frames[..n + 1]))
  {
    CleanStep(w, dir, requests, before, frames[n], paths + PathsOf(dir, frames[..n]), st);
    GoodTakes(w, dir, requests, before, frames[n]);
    FramesDoneNext(w, dir, requests, frames, n, start, before, st);
    PathsAppend(dir, frames, n + 1, paths);
  }

  lemma PathsAppend(dir: string, frames: seq<Keyframe>, n: nat, paths: seq<string>)
    requires 0 < n <= |frames| && WellFormed(frames[n - 1])
    ensures paths + PathsOf(dir, frames[..n]) == paths + PathsOf(dir, frames[..n - 1]) + [PathOf(dir, frames[n - 1])]
  {
  }

  // ------------------------------------------------------------ all directories

  function PathsIn(d: Dir): seq<string> { if d.keyframes.None? then [] else PathsOf(d.name, Frames(d.keyframes.value)) }

  function AllPaths(dirs: seq<Dir>, n: nat): seq<string>
    requires n <= |dirs|
  {
    if n == 0 then [] else AllPaths(dirs, n - 1) + PathsIn(dirs[n - 1])
  }

  function NumbersIn(d: Dir): set<int> { if d.keyframes.None? then {} else Numbers(Frames(d.keyframes.value)) }

  function AllNumbers(dirs: seq<Dir>, n: nat): set<int>
    requires n <= |dirs|
  {
    if n == 0 then {} else AllNumbers(dirs, n - 1) + NumbersIn(dirs[n - 1])
  }

  /** A directory is closed: its keyframe journal is well formed, its requests are there, each numbered
      once, no two keyframes show the same event from the same camera, and every keyframe is bound. */
  ghost predicate Closed(w: World, d: Dir, bindings: map<string, Binding>) {
    d.keyframes.Some? ==>
      && d.requests.Some? && KeyLineCodes(d.keyframes.value) == []
      && RequestLineCodes(d.requests.value) == [] && DuplicateCodes(d.requests.value) == []
      && (var frames := Frames(d.keyframes.value);
          BoundUpTo(w, d.name, TableOf(d), frames, |frames|, bindings)
          && forall i, j :: 0 <= i < j < |frames| ==> frames[i].event != frames[j].event || frames[i].camera != frames[j].camera)
  }

  lemma ClosedStays(w: World, d: Dir, a: map<string, Binding>, b: map<string, Binding>)
    requires Closed(w, d, a) && Within(a, b)
    ensures Closed(w, d, b)
  {
    if d.keyframes.Some? {
      var frames := Frames(d.keyframes.value);
      forall i | 0 <= i < |frames| ensures Bound(w, d.name, TableOf(d), frames[i], b) {
        BoundStays(w, d.name, TableOf(d), frames[i], a, b);
      }
    }
  }

  lemma OpenClean(w: World, d: Dir, st: Join, paths: seq<string>)
    requires d.keyframes.Some? && (st.diags == [] ==> Clean(w, st, paths)) && OpenDir(d, st).diags == []
    ensures st.diags == [] && OpenDir(d, st) == st && d.requests.Some?
    ensures KeyLineCodes(d.keyframes.value) == [] && RequestLineCodes(d.requests.value) == []
    ensures DuplicateCodes(d.requests.value) == []
  {
    var both := if d.requests.Some? then RequestLineCodes(d.requests.value) + DuplicateCodes(d.requests.value)
                else [MissingRequestJournal];
    assert OpenDir(d, st).diags == st.diags + both + KeyLineCodes(d.keyframes.value);
    assert |both| == 0;
  }

  lemma DirClosed(w: World, d: Dir, st: Join, paths: seq<string>, after: Join)
    requires after == JoinDir(w, d, st) && after.diags == [] && (st.diags == [] ==> Clean(w, st, paths))
    ensures st.diags == [] && Closed(w, d, after.bindings) && Within(st.bindings, after.bindings)
    ensures Clean(w, after, paths + PathsIn(d)) && after.covered == st.covered + NumbersIn(d)
  {
    if d.keyframes.None? {
      assert paths + [] == paths;
    } else {
      var frames, open := Frames(d.keyframes.value), OpenDir(d, st);
      assert open.diags == [] ==> Clean(w, open, paths) by {
        if open.diags == [] { OpenClean(w, d, st, paths); }
      }
      FramesBound(w, d, open, frames, paths, after);
      OpenClean(w, d, st, paths);
      assert frames[..|frames|] == frames;
    }
  }

  lemma {:induction false} DirsClosed(w: World, dirs: seq<Dir>, n: nat, st: Join)
    requires n <= |dirs| && st == JoinDirs(w, dirs, n) && st.diags == []
    ensures Clean(w, st, AllPaths(dirs, n)) && st.covered == AllNumbers(dirs, n)
    ensures forall i :: 0 <= i < n ==> Closed(w, dirs[i], st.bindings)
  {
    if n > 0 {
      var before := JoinDirs(w, dirs, n - 1);
      if before.diags == [] { DirsClosed(w, dirs, n - 1, before); }
      DirClosed(w, dirs[n - 1], before, AllPaths(dirs, n - 1), st);
      AllStayClosed(w, dirs, n, before.bindings, st.bindings);
    }
  }

  lemma AllStayClosed(w: World, dirs: seq<Dir>, n: nat, a: map<string, Binding>, b: map<string, Binding>)
    requires 0 < n <= |dirs| && Within(a, b) && Closed(w, dirs[n - 1], b)
    requires forall i :: 0 <= i < n - 1 ==> Closed(w, dirs[i], a)
    ensures forall i :: 0 <= i < n ==> Closed(w, dirs[i], b)
  {
    forall i | 0 <= i < n ensures Closed(w, dirs[i], b) {
      if i < n - 1 { ClosedStays(w, dirs[i], a, b); }
    }
  }

  // -------------------------------------------------------------------- coverage

  lemma {:induction false} UncoveredLaw(lines: seq<Line<Request>>, covered: set<int>)
    ensures UncoveredCodes(lines, covered) == [] <==>
      forall i :: 0 <= i < |lines| && Drives(lines[i]) ==> lines[i].record.sequence.i in covered
  {
    if lines != [] {
      var n := |lines| - 1;
      UncoveredLaw(lines[..n], covered);
      assert forall i :: 0 <= i < n ==> lines[i] == lines[..n][i];
    }
  }

  /** All request lines of a directory are recognized, and the number of each driving one is covered. */
  predicate Covered(d: Dir, covered: set<int>) {
    d.requests.Some? ==>
      && RequestLineCodes(d.requests.value) == []
      && forall i :: 0 <= i < |d.requests.value| && Drives(d.requests.value[i]) ==> d.requests.value[i].record.sequence.i in covered
  }

  lemma {:induction false} CoverageLaw(dirs: seq<Dir>, covered: set<int>, n: nat)
    requires n <= |dirs|
    ensures CoverageCodes(dirs, covered, n) == [] <==> forall i :: 0 <= i < n ==> Covered(dirs[i], covered)
  {
    if n > 0 {
      CoverageLaw(dirs, covered, n - 1);
      if dirs[n - 1].requests.Some? {
        var lines := dirs[n - 1].requests.value;
        UncoveredLaw(lines, covered);
        var codes := RequestLineCodes(lines) + UncoveredCodes(lines, covered);
        assert codes == [] <==> RequestLineCodes(lines) == [] && UncoveredCodes(lines, covered) == [];
        assert CoverageCodes(dirs, covered, n) == CoverageCodes(dirs, covered, n - 1) + codes;
      }
    }
  }

  /** No diagnostics: every keyframe of every journal is bound, to distinct paths and nothing else is;
      and the number of every driving request is the number of some keyframe of some directory. */
  lemma NothingUnbound(w: World, dirs: seq<Dir>)
    requires Load(w, dirs).diags == []
    ensures forall i :: 0 <= i < |dirs| ==> Closed(w, dirs[i], Load(w, dirs).bindings)
    ensures NoRepeats(AllPaths(dirs, |dirs|)) && forall p :: p in AllPaths(dirs, |dirs|) <==> p in Load(w, dirs).bindings
    ensures forall i :: 0 <= i < |dirs| ==> Covered(dirs[i], AllNumbers(dirs, |dirs|))
  {
    var st := JoinDirs(w, dirs, |dirs|);
    assert Load(w, dirs).diags == st.diags + CoverageCodes(dirs, st.covered, |dirs|);
    DirsClosed(w, dirs, |dirs|, st);
    CoverageLaw(dirs, st.covered, |dirs|);
  }

  /** For one keyframe: the request it is bound to is the only one of its number in its own directory. */
  lemma RequestIsUnique(w: World, d: Dir, bindings: map<string, Binding>, j: nat)
    requires Closed(w, d, bindings) && d.keyframes.Some? && j < |Frames(d.keyframes.value)|
    ensures var k, lines := Frames(d.keyframes.value)[j], d.requests.value;
      exists i :: OnlyRequest(lines, k.sequence.i, i) && Matches(lines[i].record, k) && Agrees(lines[i].record, k)
                  && Says(w, d.name, lines[i].record, k, bindings[PathOf(d.name, k)])
  {
    var frames := Frames(d.keyframes.value);
    var k, lines := frames[j], d.requests.value;
    assert Bound(w, d.name, TableOf(d), k, bindings);
    RequestTableLaw(lines, k.sequence.i);
  }

  lemma {:induction false} NumberFrom(dirs: seq<Dir>, n: nat, s: int) returns (i: nat)
    requires n <= |dirs| && s in AllNumbers(dirs, n)
    ensures i < n && s in NumbersIn(dirs[i])
  {
    if s in NumbersIn(dirs[n - 1]) { i := n - 1; } else { i := NumberFrom(dirs, n - 1, s); }
  }

  /** d has a driving request of this number. */
  predicate Requests(d: Dir, s: int) {
    d.requests.Some? && exists i :: 0 <= i < |d.requests.value| && Drives(d.requests.value[i]) && d.requests.value[i].record.sequence.i == s
  }

  /** Every driving request of the directory has a keyframe of its number there. */
  ghost predicate OwnImages(d: Dir) { forall s :: Requests(d, s) ==> s in NumbersIn(d) }

  /** Every number the directory's requests share with another directory's keyframes is one of its own. */
  ghost predicate SharedAreOwn(dirs: seq<Dir>, i: nat)
    requires i < |dirs|
  {
    forall j, s :: 0 <= j < |dirs| && j != i && s in NumbersIn(dirs[j]) && Requests(dirs[i], s) ==> s in NumbersIn(dirs[i])
  }

  /** Without diagnostics, every request of a directory has an image there if and only if this holds for the
      numbers that some other directory has keyframes of: a request can go without one exactly because the
      covered numbers are shared. */
  lemma RequestsHaveImages(w: World, dirs: seq<Dir>, i: nat)
    requires Load(w, dirs).diags == [] && i < |dirs|
    ensures OwnImages(dirs[i]) <==> SharedAreOwn(dirs, i)
  {
    NothingUnbound(w, dirs);
    if SharedAreOwn(dirs, i) {
      forall s | Requests(dirs[i], s) ensures s in NumbersIn(dirs[i]) {
        assert Covered(dirs[i], AllNumbers(dirs, |dirs|));
        var j := NumberFrom(dirs, |dirs|, s);
      }
    }
  }

  lemma {:induction false} SameDirs(w: World, dirs: seq<Dir>, more: seq<Dir>, n: nat)
    requires dirs <= more && n <= |dirs|
    ensures JoinDirs(w, more, n) == JoinDirs(w, dirs, n)
  {
    if n > 0 { SameDirs(w, dirs, more, n - 1); }
  }

  lemma CoveredMore(d: Dir, a: set<int>, b: set<int>)
    requires Covered(d, a) && a <= b
    ensures Covered(d, b)
  {
  }

  lemma CoverageMore(dirs: seq<Dir>, d: Dir, a: set<int>, b: set<int>)
    requires CoverageCodes(dirs, a, |dirs|) == [] && a <= b
    ensures CoverageCodes(dirs + [d], b, |dirs| + 1) == [] <==> Covered(d, b)
  {
    var more, n := dirs + [d], |dirs|;
    CoverageLaw(dirs, a, n);
    CoverageLaw(more, b, n + 1);
    forall i | 0 <= i < n ensures Covered(more[i], b) { CoveredMore(dirs[i], a, b); }
    assert more[n] == d;
  }

  lemma LoadIsClean(w: World, dirs: seq<Dir>)
    ensures Load(w, dirs).diags == [] <==>
      JoinDirs(w, dirs, |dirs|).diags == [] && CoverageCodes(dirs, JoinDirs(w, dirs, |dirs|).covered, |dirs|) == []
  {
    var st := JoinDirs(w, dirs, |dirs|);
    var codes := CoverageCodes(dirs, st.covered, |dirs|);
    assert |st.diags + codes| == |st.diags| + |codes|;
  }

  /** One more directory, with or without a keyframe journal of its own, is let through if and only if its
      keyframes join and each of its requests has a number covered there or in an earlier directory. */
  lemma OneMoreDirectory(w: World, dirs: seq<Dir>, d: Dir)
    requires Load(w, dirs).diags == []
    ensures Load(w, dirs + [d]).diags == [] <==>
      JoinDir(w, d, JoinDirs(w, dirs, |dirs|)).diags == [] && Covered(d, AllNumbers(dirs, |dirs|) + NumbersIn(d))
  {
    var st := JoinDirs(w, dirs, |dirs|);
    var last := JoinDir(w, d, st);
    LoadIsClean(w, dirs);
    LoadIsClean(w, dirs + [d]);
    LastDirectory(w, dirs, d);
    if last.diags == [] {
      CoveredByAll(w, dirs, d, st, last);
      CoverageMore(dirs, d, st.covered, last.covered);
    }
  }

  lemma LastDirectory(w: World, dirs: seq<Dir>, d: Dir)
    ensures JoinDirs(w, dirs + [d], |dirs + [d]|) == JoinDir(w, d, JoinDirs(w, dirs, |dirs|))
  {
    SameDirs(w, dirs, dirs + [d], |dirs|);
  }

  lemma CoveredByAll(w: World, dirs: seq<Dir>, d: Dir, st: Join, last: Join)
    requires st == JoinDirs(w, dirs, |dirs|) && last == JoinDir(w, d, st) && st.diags == last.diags == []
    ensures st.covered == AllNumbers(dirs, |dirs|) && last.covered == AllNumbers(dirs, |dirs|) + NumbersIn(d)
  {
    DirsClosed(w, dirs, |dirs|, st);
    DirClosed(w, d, st, AllPaths(dirs, |dirs|), last);
  }

  /** So shared numbers hide missing images: a further directory, with its own keyframe journal or without,
      whose keyframes join and whose requests all have a number covered there or in an earlier directory,
      adds no diagnostic - also if a request has an image only there. */
  lemma SharedNumbersHide(w: World, dirs: seq<Dir>, d: Dir, s: int)
    requires Load(w, dirs).diags == [] && JoinDir(w, d, JoinDirs(w, dirs, |dirs|)).diags == []
    requires Covered(d, AllNumbers(dirs, |dirs|) + NumbersIn(d)) && Requests(d, s) && s !in NumbersIn(d)
    ensures Load(w, dirs + [d]).diags == [] && !OwnImages(d)
  {
    OneMoreDirectory(w, dirs, d);
  }

  /** And it does happen: a directory with an empty keyframe journal, or none, whose requests are well
      formed and only use covered numbers, adds no diagnostic although none of them has an image. */
  lemma ImagelessDirectory(w: World, dirs: seq<Dir>, d: Dir)
    requires Load(w, dirs).diags == [] && Covered(d, AllNumbers(dirs, |dirs|))
    requires d.keyframes.None? || (d.keyframes == Some([]) && d.requests.Some? && DuplicateCodes(d.requests.value) == [])
    ensures Load(w, dirs + [d]).diags == [] && NumbersIn(d) == {}
  {
    var st := JoinDirs(w, dirs, |dirs|);
    assert Load(w, dirs).diags == st.diags + CoverageCodes(dirs, st.covered, |dirs|);
    if d.keyframes.Some? {
      assert RequestLineCodes(d.requests.value) + DuplicateCodes(d.requests.value) == [];
      assert OpenDir(d, st) == st;
      assert Frames([]) == [];
    }
    OneMoreDirectory(w, dirs, d);
    CoveredMore(d, AllNumbers(dirs, |dirs|), AllNumbers(dirs, |dirs|) + NumbersIn(d));
  }
}
