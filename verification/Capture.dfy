/** The fail-closed join of camera keyframes with the requests that asked for them and with the truth
    streams, as pure steps that collect diagnostics. */
module Capture {
  import opened Geometry

  const MAX_CAPTURE_LATENCY_FRAMES := 4
  const TIME_EPS := 0.000001

  // ------------------------------------------------------------------- values

  /** A floating-point number; finite ones are exact here. */
  datatype Num = Fin(r: real) | NaN | Infinite(negative: bool)

  /** A field of a parsed record. Missing stands for an absent field and for null. */
  datatype Json = Missing | Bool(b: bool) | Int(i: int) | Float(n: Num) | Str(s: string) | Other

  predicate IsText(j: Json) { j.Str? && |j.s| > 0 }

  function Number(j: Json): Option<Num> {
    match j
    case Int(i) => Some(Fin(i as real))
    case Float(n) => Some(n)
    case _ => None
  }

  function Finite(j: Json): Option<real> {
    match Number(j)
    case Some(Fin(r)) => Some(r)
    case _ => None
  }

  function Positive(j: Json): Option<real> {
    var r := Finite(j);
    if r.Some? && r.value > 0.0 then r else None
  }

  /** |a - b| > tol as floating point has it: an undefined difference exceeds nothing. */
  predicate Exceeds(a: Num, b: Num, tol: real) {
    if a.NaN? || b.NaN? then false
    else if a.Fin? && b.Fin? then Abs(a.r - b.r) > tol
    else a != b
  }

  // ------------------------------------------------------------- journal lines

  /** One line of a journal. */
  datatype Line<T> = Blank | Corrupt | NotAMapping | Entry(record: T)

  datatype Request = Request(sequence: Json, gate: Json, event: Json, scenarioId: Json, phase: Json, hasCapture: bool,
                             schema: Json, time: Json, source: Json)

  datatype Keyframe = Keyframe(gate: Json, event: Json, camera: Json, path: Json, sequence: Json, frame: Json,
                               time: Json, requestedTime: Json, dt: Json, requestedFrame: Json, latency: Json,
                               execution: Json)

  datatype Code =
    | BlankLine | CorruptLine | InvalidLine
    | UnrecognizedShape | SchemaVersion | DuplicateSequence | MissingRequestJournal
    | MissingGate | MissingEvent | MissingCamera | MissingPath | PathTraversal | PathNotCanonical
    | InvalidSequence | InvalidFrame | InvalidTimestamp
    | DuplicateIdentity | SequenceOrphan | SequenceMismatch
    | RequestTime | RequestFrameInvalid | RequestFrameMismatch
    | LatencyMissing | LatencyOutOfRange | LatencyDelta
    | ExecutionMissing | ExecutionInvalid | SourceMissing | SourceInvalid | SourceMismatch
    | PathEscape | MissingImage | UnboundAttempt | ScenarioMismatch | NoAttemptDir
    | DuplicatePhysicsKey | DuplicateEvaluatorKey | PhysicsUnbound | DuplicatePath
    | RequestWithoutImage

  function LineCode<T>(line: Line<T>): Option<Code> {
    match line
    case Blank => Some(BlankLine)
    case Corrupt => Some(CorruptLine)
    case NotAMapping => Some(InvalidLine)
    case Entry(_) => None
  }

  /** A request that drives a capture: numbered, with its gate and event. */
  predicate DrivingShape(r: Request) { r.sequence.Int? && IsText(r.gate) && IsText(r.event) }

  /** A diagnostic record of the executor, which never drives a capture. */
  predicate ExecutorShape(r: Request) { !r.sequence.Int? && IsText(r.scenarioId) && IsText(r.phase) && r.hasCapture }

  function RequestCode(line: Line<Request>): Option<Code> {
    if !line.Entry? then LineCode(line)
    else if !DrivingShape(line.record) && !ExecutorShape(line.record) then Some(UnrecognizedShape)
    else if line.record.schema.Bool? || (line.record.schema.Int? && line.record.schema.i != 1) then Some(SchemaVersion)
    else None
  }

  predicate Drives(line: Line<Request>) { RequestCode(line).None? && line.record.sequence.Int? }

  function Added(codes: seq<Code>, c: Option<Code>): seq<Code> { if c.Some? then codes + [c.value] else codes }

  function RequestLineCodes(lines: seq<Line<Request>>): seq<Code> {
    if lines == [] then [] else Added(RequestLineCodes(lines[..|lines| - 1]), RequestCode(lines[|lines| - 1]))
  }

  /** The driving requests by sequence number; the first of each number counts. */
  function RequestTable(lines: seq<Line<Request>>): map<int, Request> {
    if lines == [] then map[]
    else
      var before, line := RequestTable(lines[..|lines| - 1]), lines[|lines| - 1];
      if Drives(line) && line.record.sequence.i !in before then before[line.record.sequence.i := line.record] else before
  }

  function DuplicateCodes(lines: seq<Line<Request>>): seq<Code> {
    if lines == [] then []
    else
      var n := |lines| - 1;
      var before, line := DuplicateCodes(lines[..n]), lines[n];
      if Drives(line) && line.record.sequence.i in RequestTable(lines[..n]) then before + [DuplicateSequence] else before
  }

  function KeyLineCodes(lines: seq<Line<Keyframe>>): seq<Code> {
    if lines == [] then [] else Added(KeyLineCodes(lines[..|lines| - 1]), LineCode(lines[|lines| - 1]))
  }

  function Frames(lines: seq<Line<Keyframe>>): seq<Keyframe> {
    if lines == [] then []
    else
      var before, line := Frames(lines[..|lines| - 1]), lines[|lines| - 1];
      if line.Entry? then before + [line.record] else before
  }

  // ------------------------------------------------------- one keyframe's fields

  function Slashes(s: string): string { seq(|s|, i requires 0 <= i < |s| => if s[i] == '\\' then '/' else s[i]) }

  /** Some component between slashes is "..". */
  predicate ClimbsUp(s: string) {
    exists i :: 0 <= i && i + 2 <= |s| && s[i] == '.' && s[i + 1] == '.'
      && (i == 0 || s[i - 1] == '/') && (i + 2 == |s| || s[i + 2] == '/')
  }

  predicate Traverses(s: string) { (|s| > 0 && s[0] == '/') || ClimbsUp(s) }

  predicate IsCanonical(s: string) { "visual/source/" <= s && |s| >= 4 && s[|s| - 4..] == ".png" }

  function StructureCode(k: Keyframe): Option<Code> {
    if !IsText(k.gate) then Some(MissingGate)
    else if !IsText(k.event) then Some(MissingEvent)
    else if !IsText(k.camera) then Some(MissingCamera)
    else if !IsText(k.path) then Some(MissingPath)
    else if Traverses(Slashes(k.path.s)) then Some(PathTraversal)
    else if !IsCanonical(Slashes(k.path.s)) then Some(PathNotCanonical)
    else if !k.sequence.Int? || k.sequence.i <= 0 then Some(InvalidSequence)
    else if !k.frame.Int? || k.frame.i < 0 then Some(InvalidFrame)
    else if Finite(k.time).None? || Finite(k.time).value < 0.0 then Some(InvalidTimestamp)
    else None
  }

  predicate WellFormed(k: Keyframe) { StructureCode(k).None? }

  function Tolerance(k: Keyframe): real {
    if Positive(k.dt).Some? then Max(TIME_EPS, Positive(k.dt).value / 2.0) else TIME_EPS
  }

  function TimeCode(r: Request, k: Keyframe): Option<Code> {
    if Number(r.time).None? then None
    else if Number(k.requestedTime).None? then Some(RequestTime)
    else if Exceeds(Number(k.requestedTime).value, Number(r.time).value, Tolerance(k)) then Some(RequestTime)
    else None
  }

  /** The frame the request falls on, when both its time and the frame time are usable. */
  function ExpectedFrame(k: Keyframe): Option<int> {
    if Finite(k.requestedTime).Some? && Positive(k.dt).Some? then
      Some((Finite(k.requestedTime).value / Positive(k.dt).value + 0.5).Floor)
    else None
  }

  function FrameCode(k: Keyframe): Option<Code> {
    if !k.requestedFrame.Int? then Some(RequestFrameInvalid)
    else if ExpectedFrame(k).Some? && k.requestedFrame.i != ExpectedFrame(k).value then Some(RequestFrameMismatch)
    else None
  }

  function LatencyCode(k: Keyframe): Option<Code>
    requires WellFormed(k)
  {
    if k.latency.Missing? then Some(LatencyMissing)
    else if !k.latency.Int? || k.latency.i < 0 || k.latency.i > MAX_CAPTURE_LATENCY_FRAMES then Some(LatencyOutOfRange)
    else if k.requestedFrame.Int? && k.frame.i - k.requestedFrame.i != k.latency.i then Some(LatencyDelta)
    else None
  }

  function ExecutionCode(k: Keyframe): Option<Code> {
    if k.execution.Missing? then Some(ExecutionMissing)
    else if !k.execution.Int? || k.execution.i <= 0 then Some(ExecutionInvalid)
    else None
  }

  function SourceCode(r: Request, k: Keyframe): Option<Code> {
    if r.source.Missing? then Some(SourceMissing)
    else if !r.source.Int? || r.source.i <= 0 then Some(SourceInvalid)
    else if k.execution.Int? && k.execution.i != r.source.i then Some(SourceMismatch)
    else None
  }

  /** The checks against the request that do not stop the join. */
  function SoftCodes(r: Request, k: Keyframe): seq<Code>
    requires WellFormed(k)
  {
    Added(Added(Added(Added(Added([], TimeCode(r, k)), FrameCode(k)), LatencyCode(k)), ExecutionCode(k)), SourceCode(r, k))
  }

  // ------------------------------------------------------------- truth streams

  /** A record of the raw or of the evaluator stream; the latter may embed a frame. */
  datatype Truth = Truth(scenario: Json, frame: Json, time: Json, inner: Option<Inner>)

  datatype Inner = Inner(scenario: Json, frame: Json)

  datatype Key = Key(scenario: string, frame: int)

  function ScenarioText(j: Json): string { if j.Str? then j.s else [] }

  function RawKey(t: Truth): Option<Key> { if t.frame.Int? then Some(Key(ScenarioText(t.scenario), t.frame.i)) else None }

  function EvaluatorKey(t: Truth): Option<Key> {
    var frame := if !t.frame.Int? && t.inner.Some? then t.inner.value.frame else t.frame;
    var own := ScenarioText(t.scenario);
    var scenario := if own == [] && t.inner.Some? then ScenarioText(t.inner.value.scenario) else own;
    if frame.Int? then Some(Key(scenario, frame.i)) else None
  }

  function KeyTable(ts: seq<Truth>, key: Truth -> Option<Key>): map<Key, Truth> {
    if ts == [] then map[]
    else
      var before, t := KeyTable(ts[..|ts| - 1], key), ts[|ts| - 1];
      if key(t).Some? && key(t).value !in before then before[key(t).value := t] else before
  }

  function KeyCodes(ts: seq<Truth>, key: Truth -> Option<Key>, code: Code): seq<Code> {
    if ts == [] then []
    else
      var n := |ts| - 1;
      var before := KeyCodes(ts[..n], key, code);
      if key(ts[n]).Some? && key(ts[n]).value in KeyTable(ts[..n], key) then before + [code] else before
  }

  // ----------------------------------------------------------------- the join

  /** What the file tree says of an image path: outside the suite, a regular file, its attempt, the
      scenario declared there, and the directory of the attempt. */
  datatype Image = Image(escapes: bool, present: bool, attempt: Option<string>, declared: Option<string>,
                         home: Option<string>)

  datatype World = World(image: string -> Image, raw: string -> seq<Truth>, evaluator: string -> seq<Truth>)

  datatype Binding = Binding(event: string, scenario: string, attempt: string, request: string, sequence: int, frame: int,
                             time: real, camera: string)

  datatype Identity = Identity(dir: string, event: string, camera: string)

  datatype Join = Join(bindings: map<string, Binding>, owners: set<Identity>, covered: set<int>, homes: set<string>,
                       diags: seq<Code>)

  function Say(st: Join, codes: seq<Code>): Join { st.(diags := st.diags + codes) }

  function ImageCode(im: Image, gate: string): Option<Code> {
    if im.escapes then Some(PathEscape)
    else if !im.present then Some(MissingImage)
    else if im.attempt.None? then Some(UnboundAttempt)
    else if im.declared.Some? && im.declared.value != gate then Some(ScenarioMismatch)
    else if im.home.None? then Some(NoAttemptDir)
    else None
  }

  function TableCodes(w: World, home: string): seq<Code> {
    KeyCodes(w.raw(home), RawKey, DuplicatePhysicsKey) + KeyCodes(w.evaluator(home), EvaluatorKey, DuplicateEvaluatorKey)
  }

  /** The captured frame is in both tables, and its raw time is the keyframe's. */
  predicate PhysicsBound(w: World, home: string, k: Keyframe)
    requires WellFormed(k)
  {
    var key := Key(k.gate.s, k.frame.i);
    var raw := KeyTable(w.raw(home), RawKey);
    && key in raw && key in KeyTable(w.evaluator(home), EvaluatorKey)
    && Finite(raw[key].time).Some? && Abs(Finite(raw[key].time).value - Finite(k.time).value) <= Tolerance(k)
  }

  function PathOf(dir: string, k: Keyframe): string
    requires WellFormed(k)
  {
    dir + Slashes(k.path.s)
  }

  function BindingOf(w: World, dir: string, k: Keyframe): Binding
    requires WellFormed(k) && w.image(PathOf(dir, k)).attempt.Some?
  {
    Binding(k.event.s, k.gate.s, w.image(PathOf(dir, k)).attempt.value, k.event.s, k.sequence.i, k.frame.i,
            Finite(k.time).value, k.camera.s)
  }

  function Matches(r: Request, k: Keyframe): bool { r.gate == k.gate && r.event == k.event }

  function JoinStep(w: World, dir: string, requests: map<int, Request>, st: Join, k: Keyframe): Join {
    if !WellFormed(k) then Say(st, [StructureCode(k).value])
    else
      var id := Identity(dir, k.event.s, k.camera.s);
      if id in st.owners then Say(st, [DuplicateIdentity])
      else JoinRequest(w, dir, requests, st.(owners := st.owners + {id}), k)
  }

  function JoinRequest(w: World, dir: string, requests: map<int, Request>, st: Join, k: Keyframe): Join
    requires WellFormed(k)
  {
    var s := k.sequence.i;
    if s !in requests then Say(st, [SequenceOrphan])
    else if !Matches(requests[s], k) then Say(st, [SequenceMismatch])
    else JoinImage(w, dir, Say(st.(covered := st.covered + {s}), SoftCodes(requests[s], k)), k)
  }

  function JoinImage(w: World, dir: string, st: Join, k: Keyframe): Join
    requires WellFormed(k)
  {
    var code := ImageCode(w.image(PathOf(dir, k)), k.gate.s);
    if code.Some? then Say(st, [code.value])
    else
      var home := w.image(PathOf(dir, k)).home.value;
      JoinPhysics(w, dir, home, WithTables(w, home, st), k)
  }

  function WithTables(w: World, home: string, st: Join): Join {
    if home in st.homes then st else Say(st.(homes := st.homes + {home}), TableCodes(w, home))
  }

  function JoinPhysics(w: World, dir: string, home: string, st: Join, k: Keyframe): Join
    requires WellFormed(k) && w.image(PathOf(dir, k)).attempt.Some?
  {
    var path := PathOf(dir, k);
    if !PhysicsBound(w, home, k) then Say(st, [PhysicsUnbound])
    else if path in st.bindings then Say(st, [DuplicatePath])
    else st.(bindings := st.bindings[path := BindingOf(w, dir, k)])
  }

  /** A directory of the suite with its two journals, each of which may be missing. */
  datatype Dir = Dir(name: string, keyframes: Option<seq<Line<Keyframe>>>, requests: Option<seq<Line<Request>>>)

  function TableOf(d: Dir): map<int, Request> { if d.requests.Some? then RequestTable(d.requests.value) else map[] }

  function OpenDir(d: Dir, st: Join): Join
    requires d.keyframes.Some?
  {
    var requestCodes := if d.requests.Some? then RequestLineCodes(d.requests.value) + DuplicateCodes(d.requests.value)
                        else [MissingRequestJournal];
    Say(Say(st, requestCodes), KeyLineCodes(d.keyframes.value))
  }

  /** One keyframe after the other. */
  function JoinFrames(step: (Join, Keyframe) -> Join, st: Join, frames: seq<Keyframe>, n: nat): Join
    requires n <= |frames|
  {
    if n == 0 then st else step(JoinFrames(step, st, frames, n - 1), frames[n - 1])
  }

  function StepIn(w: World, d: Dir): (Join, Keyframe) -> Join {
    (st: Join, k: Keyframe) => JoinStep(w, d.name, TableOf(d), st, k)
  }

  function JoinDir(w: World, d: Dir, st: Join): Join {
    if d.keyframes.None? then st
    else
      var frames := Frames(d.keyframes.value);
      JoinFrames(StepIn(w, d), OpenDir(d, st), frames, |frames|)
  }

  function JoinDirs(w: World, dirs: seq<Dir>, n: nat): Join
    requires n <= |dirs|
  {
    if n == 0 then Join(map[], {}, {}, {}, []) else JoinDir(w, dirs[n - 1], JoinDirs(w, dirs, n - 1))
  }

  /** Driving requests whose number no keyframe of any directory has joined. */
  function UncoveredCodes(lines: seq<Line<Request>>, covered: set<int>): seq<Code> {
    if lines == [] then []
    else
      var before, line := UncoveredCodes(lines[..|lines| - 1], covered), lines[|lines| - 1];
      if Drives(line) && line.record.sequence.i !in covered then before + [RequestWithoutImage] else before
  }

  function CoverageCodes(dirs: seq<Dir>, covered: set<int>, n: nat): seq<Code>
    requires n <= |dirs|
  {
    if n == 0 then []
    else
      var before, d := CoverageCodes(dirs, covered, n - 1), dirs[n - 1];
      if d.requests.Some? then before + (RequestLineCodes(d.requests.value) + UncoveredCodes(d.requests.value, covered))
      else before
  }

  /** The whole join. */
  function Load(w: World, dirs: seq<Dir>): Join {
    var st := JoinDirs(w, dirs, |dirs|);
    Say(st, CoverageCodes(dirs, st.covered, |dirs|))
  }
}
