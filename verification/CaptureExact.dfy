/** Exactly when the join leaves no diagnostics: the converse of module CaptureLaws, and what each check of it
    demands. */
module CaptureExact {
  import opened Geometry
  import opened Capture
  import opened CaptureLaws

  // ------------------------------------------------------------ all keyframes

  /** A keyframe in the journal of a directory. */
  datatype Shot = Shot(dir: Dir, k: Keyframe)

  function ShotsOf(d: Dir, frames: seq<Keyframe>): seq<Shot> {
    seq(|frames|, i requires 0 <= i < |frames| => Shot(d, frames[i]))
  }

  function ShotsIn(d: Dir): seq<Shot> { if d.keyframes.None? then [] else ShotsOf(d, Frames(d.keyframes.value)) }

  /** The keyframes of the first n directories, in the order of the join. */
  function Shots(dirs: seq<Dir>, n: nat): seq<Shot>
    requires n <= |dirs|
  {
    if n == 0 then [] else Shots(dirs, n - 1) + ShotsIn(dirs[n - 1])
  }

  /** A keyframe is well formed, matches and agrees with the request of its number in its directory, its image
      is a file of a known attempt, and the truth streams of the attempt have it, with no key twice. */
  predicate ShotGood(w: World, s: Shot) {
    var k, requests := s.k, TableOf(s.dir);
    && WellFormed(k) && k.sequence.i in requests && Matches(requests[k.sequence.i], k) && Agrees(requests[k.sequence.i], k)
    && Placed(w, s.dir.name, k) && TableCodes(w, HomeOf(w, s.dir.name, k)) == []
    && PhysicsBound(w, HomeOf(w, s.dir.name, k), k)
  }

  /** Two keyframes do not share a path, nor the event and camera within a directory of the same name. */
  predicate Apart(a: Shot, b: Shot)
    requires WellFormed(a.k) && WellFormed(b.k)
  {
    && PathOf(a.dir.name, a.k) != PathOf(b.dir.name, b.k)
    && (a.dir.name != b.dir.name || a.k.event != b.k.event || a.k.camera != b.k.camera)
  }

  predicate AllGood(w: World, shots: seq<Shot>) { forall i :: 0 <= i < |shots| ==> ShotGood(w, shots[i]) }

  predicate AllApart(w: World, shots: seq<Shot>)
    requires AllGood(w, shots)
  {
    forall i, j :: 0 <= i < j < |shots| ==> Apart(shots[i], shots[j])
  }

  predicate Fine(w: World, shots: seq<Shot>) { AllGood(w, shots) && AllApart(w, shots) }

  /** The directory's journals can be read: every keyframe line is a record, every request line recognized,
      and no number given twice. */
  predicate Opens(d: Dir) {
    d.keyframes.Some? ==>
      && d.requests.Some? && RequestLineCodes(d.requests.value) == [] && DuplicateCodes(d.requests.value) == []
      && KeyLineCodes(d.keyframes.value) == []
  }

  predicate HasPath(s: Shot, p: string) { WellFormed(s.k) && PathOf(s.dir.name, s.k) == p }

  predicate HasIdentity(s: Shot, id: Identity) { WellFormed(s.k) && Identity(s.dir.name, s.k.event.s, s.k.camera.s) == id }

  predicate Taken(shots: seq<Shot>, p: string) { exists i :: 0 <= i < |shots| && HasPath(shots[i], p) }

  predicate Owns(shots: seq<Shot>, id: Identity) { exists i :: 0 <= i < |shots| && HasIdentity(shots[i], id) }

  /** The state of the join after these keyframes, all of them good. */
  ghost predicate Tracks(w: World, st: Join, shots: seq<Shot>) {
    && (forall p :: p in st.bindings <==> Taken(shots, p)) && (forall id :: id in st.owners <==> Owns(shots, id))
    && (forall home :: home in st.homes ==> TableCodes(w, home) == [])
  }

  lemma FineNext(w: World, shots: seq<Shot>, s: Shot)
    ensures Fine(w, shots + [s]) <==>
      Fine(w, shots) && ShotGood(w, s) && forall i :: 0 <= i < |shots| ==> Apart(shots[i], s)
  {
    var all := shots + [s];
    assert all[|shots|] == s && forall i :: 0 <= i < |shots| ==> all[i] == shots[i];
    if Fine(w, all) {
      forall i | 0 <= i < |shots| ensures ShotGood(w, shots[i]) { assert ShotGood(w, all[i]); }
      forall i, j | 0 <= i < j < |shots| ensures Apart(shots[i], shots[j]) { assert Apart(all[i], all[j]); }
      forall i | 0 <= i < |shots| ensures Apart(shots[i], s) { assert Apart(all[i], all[|shots|]); }
    }
  }

  lemma PathNext(shots: seq<Shot>, s: Shot, p: string)
    ensures Taken(shots + [s], p) <==> Taken(shots, p) || HasPath(s, p)
  {
    var all := shots + [s];
    assert all[|shots|] == s && forall i :: 0 <= i < |shots| ==> all[i] == shots[i];
    if Taken(shots, p) {
      var i :| 0 <= i < |shots| && HasPath(shots[i], p);
      assert HasPath(all[i], p);
    }
  }

  lemma IdentityNext(shots: seq<Shot>, s: Shot, id: Identity)
    ensures Owns(shots + [s], id) <==> Owns(shots, id) || HasIdentity(s, id)
  {
    var all := shots + [s];
    assert all[|shots|] == s && forall i :: 0 <= i < |shots| ==> all[i] == shots[i];
    if Owns(shots, id) {
      var i :| 0 <= i < |shots| && HasIdentity(shots[i], id);
      assert HasIdentity(all[i], id);
    }
  }

  /** A keyframe is apart from all earlier ones if neither its path nor its identity is taken. */
  lemma ApartFromAll(w: World, shots: seq<Shot>, s: Shot)
    requires AllGood(w, shots) && WellFormed(s.k)
    ensures (forall i :: 0 <= i < |shots| ==> Apart(shots[i], s)) <==>
      !Taken(shots, PathOf(s.dir.name, s.k)) && !Owns(shots, Identity(s.dir.name, s.k.event.s, s.k.camera.s))
  {
    var p, id := PathOf(s.dir.name, s.k), Identity(s.dir.name, s.k.event.s, s.k.camera.s);
    forall i | 0 <= i < |shots| ensures Apart(shots[i], s) <==> !HasPath(shots[i], p) && !HasIdentity(shots[i], id) {
      assert ShotGood(w, shots[i]);
    }
    if !Taken(shots, p) && !Owns(shots, id) {
      forall i | 0 <= i < |shots| ensures Apart(shots[i], s) {
        assert !HasPath(shots[i], p) && !HasIdentity(shots[i], id);
      }
    }
  }

  /** A step is silent exactly for a good keyframe apart from those before. */
  lemma StepExact(w: World, d: Dir, st: Join, shots: seq<Shot>, k: Keyframe)
    requires Fine(w, shots) && Tracks(w, st, shots)
    ensures Good(w, d.name, TableOf(d), st, k) <==> Fine(w, shots + [Shot(d, k)])
    ensures Good(w, d.name, TableOf(d), st, k) ==> Tracks(w, Joined(w, d.name, st, k), shots + [Shot(d, k)])
  {
    FineNext(w, shots, Shot(d, k));
    if WellFormed(k) { ApartFromAll(w, shots, Shot(d, k)); }
    if Good(w, d.name, TableOf(d), st, k) { TracksNext(w, d, st, shots, k); }
  }

  lemma TracksNext(w: World, d: Dir, st: Join, shots: seq<Shot>, k: Keyframe)
    requires Tracks(w, st, shots) && Good(w, d.name, TableOf(d), st, k)
    ensures Tracks(w, Joined(w, d.name, st, k), shots + [Shot(d, k)])
  {
    var s, all, after := Shot(d, k), shots + [Shot(d, k)], Joined(w, d.name, st, k);
    forall p ensures p in after.bindings <==> Taken(all, p) { PathNext(shots, s, p); }
    forall id ensures id in after.owners <==> Owns(all, id) { IdentityNext(shots, s, id); }
  }

  // ------------------------------------------------------------ directory by directory

  /** After some keyframes: silent exactly if they are fine, and then the state tracks them. */
  ghost predicate Exact(w: World, st: Join, shots: seq<Shot>, open: bool) {
    (st.diags == [] <==> open && Fine(w, shots)) && (st.diags == [] ==> Tracks(w, st, shots))
  }

  lemma FrameExact(w: World, d: Dir, st: Join, shots: seq<Shot>, k: Keyframe, open: bool)
    requires Exact(w, st, shots, open)
    ensures Exact(w, JoinStep(w, d.name, TableOf(d), st, k), shots + [Shot(d, k)], open)
  {
    StepGood(w, d.name, TableOf(d), st, k);
    FineNext(w, shots, Shot(d, k));
    if st.diags == [] { StepExact(w, d, st, shots, k); }
  }

  lemma {:induction false} FramesExact(w: World, d: Dir, start: Join, shots: seq<Shot>, frames: seq<Keyframe>, n: nat, open: bool)
    requires n <= |frames| && Exact(w, start, shots, open)
    ensures Exact(w, JoinFrames(StepIn(w, d), start, frames, n), shots + ShotsOf(d, frames[..n]), open)
  {
    if n == 0 {
      assert shots + ShotsOf(d, frames[..0]) == shots;
    } else {
      FramesExact(w, d, start, shots, frames, n - 1, open);
      FrameExact(w, d, JoinFrames(StepIn(w, d), start, frames, n - 1), shots + ShotsOf(d, frames[..n - 1]), frames[n - 1], open);
      assert shots + ShotsOf(d, frames[..n]) == shots + ShotsOf(d, frames[..n - 1]) + [Shot(d, frames[n - 1])];
    }
  }

  lemma OpenExact(w: World, d: Dir, st: Join, shots: seq<Shot>, open: bool)
    requires d.keyframes.Some? && Exact(w, st, shots, open)
    ensures Exact(w, OpenDir(d, st), shots, open && Opens(d))
  {
    var both := if d.requests.Some? then RequestLineCodes(d.requests.value) + DuplicateCodes(d.requests.value)
                else [MissingRequestJournal];
    var keys := KeyLineCodes(d.keyframes.value);
    assert OpenDir(d, st) == st.(diags := st.diags + both + keys);
    assert |st.diags + both + keys| == |st.diags| + |both| + |keys|;
    if d.requests.Some? {
      assert |both| == |RequestLineCodes(d.requests.value)| + |DuplicateCodes(d.requests.value)|;
    }
    assert OpenDir(d, st).diags == [] <==> st.diags == [] && Opens(d);
  }

  lemma DirExact(w: World, d: Dir, st: Join, shots: seq<Shot>, open: bool)
    requires Exact(w, st, shots, open)
    ensures Exact(w, JoinDir(w, d, st), shots + ShotsIn(d), open && Opens(d))
  {
    if d.keyframes.None? {
      assert shots + [] == shots;
    } else {
      var frames := Frames(d.keyframes.value);
      OpenExact(w, d, st, shots, open);
      FramesExact(w, d, OpenDir(d, st), shots, frames, |frames|, open && Opens(d));
      assert frames[..|frames|] == frames;
    }
  }

  predicate AllOpen(dirs: seq<Dir>, n: nat)
    requires n <= |dirs|
  {
    forall i :: 0 <= i < n ==> Opens(dirs[i])
  }

  lemma {:induction false} DirsExact(w: World, dirs: seq<Dir>, n: nat)
    requires n <= |dirs|
    ensures Exact(w, JoinDirs(w, dirs, n), Shots(dirs, n), AllOpen(dirs, n))
  {
    if n > 0 {
      DirsExact(w, dirs, n - 1);
      DirExact(w, dirs[n - 1], JoinDirs(w, dirs, n - 1), Shots(dirs, n - 1), AllOpen(dirs, n - 1));
      assert AllOpen(dirs, n) <==> AllOpen(dirs, n - 1) && Opens(dirs[n - 1]);
    }
  }

  /** The join of a suite leaves no diagnostics if and only if all journals can be read, every keyframe is
      good, no two share a path or an event and camera, and every request of every directory has a number
      that some keyframe of the suite has. */
  lemma CleanExactly(w: World, dirs: seq<Dir>)
    ensures Load(w, dirs).diags == [] <==>
      && AllOpen(dirs, |dirs|) && Fine(w, Shots(dirs, |dirs|))
      && forall i :: 0 <= i < |dirs| ==> Covered(dirs[i], AllNumbers(dirs, |dirs|))
  {
    var st := JoinDirs(w, dirs, |dirs|);
    DirsExact(w, dirs, |dirs|);
    LoadIsClean(w, dirs);
    if st.diags == [] {
      DirsClosed(w, dirs, |dirs|, st);
      CoverageLaw(dirs, st.covered, |dirs|);
    }
  }

  /** The keyframe has a request: it is well formed, the first of its event and camera, and matches the request
      of its number. */
  predicate HasRequest(dir: string, requests: map<int, Request>, st: Join, k: Keyframe) {
    && WellFormed(k) && Identity(dir, k.event.s, k.camera.s) !in st.owners
    && k.sequence.i in requests && Matches(requests[k.sequence.i], k)
  }

  /** What one keyframe changes, also if it gives diagnostics: it is bound if it has a request, a placed image, truth
      records and a path of its own - even if it disagrees with the request on time, frame, latency or step. */
  lemma StepChanges(w: World, dir: string, requests: map<int, Request>, st: Join, k: Keyframe)
    ensures var after := JoinStep(w, dir, requests, st, k);
      && st.diags <= after.diags
      && after.owners == (if WellFormed(k) then st.owners + {Identity(dir, k.event.s, k.camera.s)} else st.owners)
      && after.covered == (if HasRequest(dir, requests, st, k) then st.covered + {k.sequence.i} else st.covered)
    ensures var after := JoinStep(w, dir, requests, st, k);
      if HasRequest(dir, requests, st, k) && Placed(w, dir, k) && PhysicsBound(w, HomeOf(w, dir, k), k)
         && PathOf(dir, k) !in st.bindings
      then
        && after.bindings.Keys == st.bindings.Keys + {PathOf(dir, k)}
        && (forall p :: p in st.bindings ==> after.bindings[p] == st.bindings[p])
        && Says(w, dir, requests[k.sequence.i], k, after.bindings[PathOf(dir, k)])
      else after.bindings == st.bindings
  {
    if HasRequest(dir, requests, st, k) {
      var said := Say(st.(owners := st.owners + {Identity(dir, k.event.s, k.camera.s)}, covered := st.covered + {k.sequence.i}),
                      SoftCodes(requests[k.sequence.i], k));
      assert JoinStep(w, dir, requests, st, k) == JoinImage(w, dir, said, k);
      ImageChanges(w, dir, requests[k.sequence.i], said, k);
    }
  }

  lemma ImageChanges(w: World, dir: string, r: Request, st: Join, k: Keyframe)
    requires WellFormed(k) && Matches(r, k)
    ensures var after := JoinImage(w, dir, st, k);
      st.diags <= after.diags && after.owners == st.owners && after.covered == st.covered
    ensures var after := JoinImage(w, dir, st, k);
      if Placed(w, dir, k) && PhysicsBound(w, HomeOf(w, dir, k), k) && PathOf(dir, k) !in st.bindings
      then
        && after.bindings.Keys == st.bindings.Keys + {PathOf(dir, k)}
        && (forall p :: p in st.bindings ==> after.bindings[p] == st.bindings[p])
        && Says(w, dir, r, k, after.bindings[PathOf(dir, k)])
      else after.bindings == st.bindings
  {
    if Placed(w, dir, k) { BindingSays(w, dir, r, k); }
  }

  // ------------------------------------------------------- what each check demands

  /** A path as the join reads it: backslashes are slashes; it is relative, never climbs up, and names a .png
      below visual/source. */
  predicate PlainPath(path: string) {
    var p := Slashes(path);
    && (|p| > 0 ==> p[0] != '/') && !ClimbsUp(p) && "visual/source/" <= p && |p| >= 4 && p[|p| - 4..] == ".png"
  }

  lemma SlashesLaw(path: string, i: nat)
    ensures |Slashes(path)| == |path|
    ensures i < |path| ==> Slashes(path)[i] == if path[i] == '\\' then '/' else path[i]
  {
  }

  lemma WellFormedExactly(k: Keyframe)
    ensures WellFormed(k) <==>
      && k.gate.Str? && k.gate.s != [] && k.event.Str? && k.event.s != [] && k.camera.Str? && k.camera.s != []
      && k.path.Str? && k.path.s != [] && PlainPath(k.path.s)
      && k.sequence.Int? && k.sequence.i > 0 && k.frame.Int? && k.frame.i >= 0
      && Finite(k.time).Some? && Finite(k.time).value >= 0.0
    ensures WellFormed(k) ==> forall dir :: PathOf(dir, k) == dir + Slashes(k.path.s)
  {
  }

  /** The defect named is the first one of a keyframe. */
  lemma DefectNamed(k: Keyframe)
    ensures StructureCode(k) == Some(MissingGate) <==> !IsText(k.gate)
    ensures StructureCode(k) == Some(MissingEvent) <==> IsText(k.gate) && !IsText(k.event)
    ensures StructureCode(k) == Some(MissingCamera) <==> IsText(k.gate) && IsText(k.event) && !IsText(k.camera)
    ensures StructureCode(k) == Some(MissingPath) <==>
      IsText(k.gate) && IsText(k.event) && IsText(k.camera) && !IsText(k.path)
    ensures !WellFormed(k) && IsText(k.gate) && IsText(k.event) && IsText(k.camera) && IsText(k.path) && PlainPath(k.path.s) ==>
      StructureCode(k) == if !k.sequence.Int? || k.sequence.i <= 0 then Some(InvalidSequence)
                          else if !k.frame.Int? || k.frame.i < 0 then Some(InvalidFrame) else Some(InvalidTimestamp)
  {
  }

  /** A request line drives a capture exactly if it is a record with a number, a gate and an event, whose schema
      number, if it has one, is 1; it is recognized exactly if it does or is a diagnostic record of the executor. */
  lemma DrivesExactly(line: Line<Request>)
    ensures Drives(line) <==>
      && line.Entry? && line.record.sequence.Int? && line.record.gate.Str? && line.record.gate.s != []
      && line.record.event.Str? && line.record.event.s != []
      && !line.record.schema.Bool? && (line.record.schema.Int? ==> line.record.schema.i == 1)
    ensures RequestCode(line).None? <==>
      Drives(line)
      || (&& line.Entry? && !line.record.sequence.Int? && line.record.scenarioId.Str? && line.record.scenarioId.s != []
          && line.record.phase.Str? && line.record.phase.s != [] && line.record.hasCapture
          && !line.record.schema.Bool? && (line.record.schema.Int? ==> line.record.schema.i == 1))
  {
  }

  /** An image is placed exactly if it is a file in the suite, of a known attempt with a directory, which does not
      declare another scenario. */
  lemma PlacedExactly(w: World, dir: string, k: Keyframe)
    requires WellFormed(k)
    ensures var im := w.image(PathOf(dir, k));
      Placed(w, dir, k) <==>
      !im.escapes && im.present && im.attempt.Some? && im.home.Some? && (im.declared.Some? ==> Str(im.declared.value) == k.gate)
  {
  }

  /** The key of a raw record is its own scenario and frame number. */
  lemma RawKeyExactly(t: Truth, key: Key)
    ensures RawKey(t) == Some(key) <==>
      t.frame == Int(key.frame) && key.scenario == if t.scenario.Str? then t.scenario.s else ""
  {
  }

  /** The key of an evaluator record: its own number, else that of the frame it embeds; its own scenario, unless
      that is empty or no text, else that of the frame. */
  lemma EvaluatorKeyExactly(t: Truth, key: Key)
    ensures EvaluatorKey(t) == Some(key) <==>
      && (if t.frame.Int? || t.inner.None? then t.frame == Int(key.frame) else t.inner.value.frame == Int(key.frame))
      && (if (t.scenario.Str? && t.scenario.s != []) || t.inner.None?
          then key.scenario == ScenarioText(t.scenario) else key.scenario == ScenarioText(t.inner.value.scenario))
  {
  }

  /** No two records have the same key. */
  ghost predicate NoKeyTwice<T>(ts: seq<T>, key: T -> Option<Key>) {
    forall i, j :: 0 <= i < j < |ts| && key(ts[i]).Some? ==> key(ts[i]) != key(ts[j])
  }

  lemma {:induction false} TableHas(ts: seq<Truth>, key: Truth -> Option<Key>, kk: Key)
    ensures kk in KeyTable(ts, key) <==> exists i :: 0 <= i < |ts| && key(ts[i]) == Some(kk)
  {
    if ts != [] {
      var n := |ts| - 1;
      TableHas(ts[..n], key, kk);
      assert forall i :: 0 <= i < n ==> ts[..n][i] == ts[i];
    }
  }

  /** A number of a record: an integer or a finite float. */
  predicate Reads(j: Json, r: real) { (j.Int? && r == j.i as real) || j == Float(Fin(r)) }

  lemma ReadsLaw(j: Json, r: real)
    ensures Finite(j) == Some(r) <==> Reads(j, r)
  {
  }

  /** The time tolerance is half the frame time if that is a positive number, and at least a microsecond. */
  lemma ToleranceIs(k: Keyframe, dt: real)
    ensures Tolerance(k) >= 0.000001
    ensures Reads(k.dt, dt) && dt > 0.0 ==>
      Tolerance(k) >= dt / 2.0 && (Tolerance(k) == dt / 2.0 || Tolerance(k) == 0.000001)
    ensures (forall d :: Reads(k.dt, d) ==> d <= 0.0) ==> Tolerance(k) == 0.000001
  {
    if Positive(k.dt).Some? { ReadsLaw(k.dt, Positive(k.dt).value); }
  }

  /** The frame a request falls on is the one nearest to its time, the later of two; it is known exactly if both the
      requested time and the frame time are numbers, the latter positive. */
  lemma ExpectedFrameIs(k: Keyframe, t: real, dt: real)
    ensures Reads(k.requestedTime, t) && Reads(k.dt, dt) && dt > 0.0 ==>
      ExpectedFrame(k).Some? && -0.5 < ExpectedFrame(k).value as real - t / dt <= 0.5
    ensures ExpectedFrame(k).Some? ==>
      exists u, d :: Reads(k.requestedTime, u) && Reads(k.dt, d) && d > 0.0
  {
    if ExpectedFrame(k).Some? {
      ReadsLaw(k.requestedTime, Finite(k.requestedTime).value);
      ReadsLaw(k.dt, Positive(k.dt).value);
    }
  }

  /** Record i is the first of its key. */
  ghost predicate FirstOf(ts: seq<Truth>, key: Truth -> Option<Key>, kk: Key, i: nat) {
    i < |ts| && key(ts[i]) == Some(kk) && forall j :: 0 <= j < i ==> key(ts[j]) != Some(kk)
  }

  lemma {:induction false} FirstWins(ts: seq<Truth>, key: Truth -> Option<Key>, kk: Key, i: nat)
    requires FirstOf(ts, key, kk, i)
    ensures kk in KeyTable(ts, key) && KeyTable(ts, key)[kk] == ts[i]
  {
    var n := |ts| - 1;
    assert forall j :: 0 <= j < n ==> ts[..n][j] == ts[j];
    TableHas(ts[..n], key, kk);
    if i < n { FirstWins(ts[..n], key, kk, i); }
  }

  lemma {:induction false} SomeFirst(ts: seq<Truth>, key: Truth -> Option<Key>, kk: Key) returns (i: nat)
    requires kk in KeyTable(ts, key)
    ensures FirstOf(ts, key, kk, i)
  {
    var n := |ts| - 1;
    assert forall j :: 0 <= j < n ==> ts[..n][j] == ts[j];
    TableHas(ts[..n], key, kk);
    i := n;
    if kk in KeyTable(ts[..n], key) { i := SomeFirst(ts[..n], key, kk); }
  }

  /** The raw record is at the keyframe's time, within the tolerance. */
  predicate AtItsTime(t: Truth, k: Keyframe)
    requires WellFormed(k)
  {
    Finite(t.time).Some? && Abs(Finite(t.time).value - Finite(k.time).value) <= Tolerance(k)
  }

  /** The truth streams have a keyframe exactly if the first raw record of its scenario and frame is at its time, and
      there is an evaluator record of them. */
  lemma TruthExactly(w: World, home: string, k: Keyframe)
    requires WellFormed(k)
    ensures var key := Key(k.gate.s, k.frame.i);
      PhysicsBound(w, home, k) <==>
      && (exists i: nat :: i < |w.raw(home)| && FirstOf(w.raw(home), RawKey, key, i) && AtItsTime(w.raw(home)[i], k))
      && exists j :: 0 <= j < |w.evaluator(home)| && EvaluatorKey(w.evaluator(home)[j]) == Some(key)
  {
    var key, raw := Key(k.gate.s, k.frame.i), w.raw(home);
    TableHas(w.evaluator(home), EvaluatorKey, key);
    if key in KeyTable(raw, RawKey) {
      var i := SomeFirst(raw, RawKey, key);
      FirstWins(raw, RawKey, key, i);
    }
    if i: nat :| i < |raw| && FirstOf(raw, RawKey, key, i) && AtItsTime(raw[i], k) { FirstWins(raw, RawKey, key, i); }
  }

  /** A stream gives no duplicate diagnostics exactly if no key occurs twice. */
  lemma {:induction false} SilentTable(ts: seq<Truth>, key: Truth -> Option<Key>, code: Code)
    ensures KeyCodes(ts, key, code) == [] <==> NoKeyTwice(ts, key)
  {
    if ts != [] {
      var n := |ts| - 1;
      SilentTable(ts[..n], key, code);
      assert forall i :: 0 <= i < n ==> ts[..n][i] == ts[i];
      if key(ts[n]).Some? { TableHas(ts[..n], key, key(ts[n]).value); }
      KeysNext(ts, key);
    }
  }

  lemma KeysNext(ts: seq<Truth>, key: Truth -> Option<Key>)
    requires ts != []
    ensures var n := |ts| - 1;
      NoKeyTwice(ts, key) <==>
      NoKeyTwice(ts[..n], key) && (key(ts[n]).Some? ==> !exists i :: 0 <= i < n && key(ts[i]) == key(ts[n]))
  {
    var n := |ts| - 1;
    assert forall i :: 0 <= i < n ==> ts[..n][i] == ts[i];
    if NoKeyTwice(ts, key) {
      forall i, j | 0 <= i < j < n && key(ts[..n][i]).Some? ensures key(ts[..n][i]) != key(ts[..n][j]) {
        assert key(ts[i]) != key(ts[j]);
      }
    }
  }

  predicate NoNumberTwice(lines: seq<Line<Request>>) {
    forall i, j :: 0 <= i < j < |lines| && Drives(lines[i]) && Drives(lines[j]) ==>
      lines[i].record.sequence.i != lines[j].record.sequence.i
  }

  lemma {:induction false} RequestTableHas(lines: seq<Line<Request>>, s: int)
    ensures s in RequestTable(lines) <==> exists i :: 0 <= i < |lines| && Drives(lines[i]) && lines[i].record.sequence.i == s
  {
    if lines != [] {
      var n := |lines| - 1;
      RequestTableHas(lines[..n], s);
      assert forall i :: 0 <= i < n ==> lines[..n][i] == lines[i];
    }
  }

  /** A request journal gives no diagnostics exactly if all its lines are recognized, and no number twice exactly if
      none is; a keyframe journal exactly if all its lines are records. */
  lemma {:induction false} SilentRequests(lines: seq<Line<Request>>)
    ensures RequestLineCodes(lines) == [] <==> forall i :: 0 <= i < |lines| ==> RequestCode(lines[i]).None?
    ensures DuplicateCodes(lines) == [] <==> NoNumberTwice(lines)
  {
    if lines != [] {
      var n := |lines| - 1;
      SilentRequests(lines[..n]);
      assert forall i :: 0 <= i < n ==> lines[..n][i] == lines[i];
      if Drives(lines[n]) { RequestTableHas(lines[..n], lines[n].record.sequence.i); }
      NumbersNext(lines);
    }
  }

  lemma NumbersNext(lines: seq<Line<Request>>)
    requires lines != []
    ensures var n := |lines| - 1;
      NoNumberTwice(lines) <==>
      NoNumberTwice(lines[..n])
      && (Drives(lines[n]) ==>
            !exists i :: 0 <= i < n && Drives(lines[i]) && lines[i].record.sequence.i == lines[n].record.sequence.i)
  {
    var n := |lines| - 1;
    assert forall i :: 0 <= i < n ==> lines[..n][i] == lines[i];
    if NoNumberTwice(lines) {
      forall i, j | 0 <= i < j < n && Drives(lines[..n][i]) && Drives(lines[..n][j])
        ensures lines[..n][i].record.sequence.i != lines[..n][j].record.sequence.i
      {
        assert lines[i] == lines[..n][i] && lines[j] == lines[..n][j];
      }
    }
  }

  lemma {:induction false} SilentKeyframes(lines: seq<Line<Keyframe>>)
    ensures KeyLineCodes(lines) == [] <==> forall i :: 0 <= i < |lines| ==> lines[i].Entry?
    ensures |Frames(lines)| <= |lines|
    ensures (forall i :: 0 <= i < |lines| ==> lines[i].Entry?) ==>
      |Frames(lines)| == |lines| && forall i :: 0 <= i < |lines| ==> Frames(lines)[i] == lines[i].record
  {
    if lines != [] {
      SilentKeyframes(lines[..|lines| - 1]);
      assert forall i :: 0 <= i < |lines| - 1 ==> lines[..|lines| - 1][i] == lines[i];
    }
  }
}
