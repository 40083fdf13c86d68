/** The evidence join as it runs: journals read line by line into tables, one shared list of diagnostics,
    and dictionaries filled keyframe by keyframe; proved to compute module Capture. */
module CaptureMethods {
  import opened Geometry
  import opened Capture

  lemma PrefixNext<T>(xs: seq<T>, n: nat)
    requires n < |xs|
    ensures xs[..n + 1][..n] == xs[..n] && xs[..n + 1][n] == xs[n] && xs[..|xs|] == xs
  {
  }

  method ReadRequestRecords(lines: seq<Line<Request>>) returns (records: seq<Request>, codes: seq<Code>)
    ensures codes == RequestLineCodes(lines) && records == Recognized(lines)
  {
    records, codes := [], [];
    for n := 0 to |lines|
      invariant codes == RequestLineCodes(lines[..n]) && records == Recognized(lines[..n])
    {
      PrefixNext(lines, n);
      var code := RequestCode(lines[n]);
      if code.Some? { codes := codes + [code.value]; } else { records := records + [lines[n].record]; }
    }
    assert lines[..|lines|] == lines;
  }

  /** The records of the recognized lines. */
  function Recognized(lines: seq<Line<Request>>): seq<Request> {
    if lines == [] then []
    else
      var before, line := Recognized(lines[..|lines| - 1]), lines[|lines| - 1];
      if RequestCode(line).None? then before + [line.record] else before
  }

  method ReadKeyframes(lines: seq<Line<Keyframe>>) returns (frames: seq<Keyframe>, codes: seq<Code>)
    ensures codes == KeyLineCodes(lines) && frames == Frames(lines)
  {
    frames, codes := [], [];
    for n := 0 to |lines|
      invariant codes == KeyLineCodes(lines[..n]) && frames == Frames(lines[..n])
    {
      PrefixNext(lines, n);
      var code := LineCode(lines[n]);
      if code.Some? { codes := codes + [code.value]; } else { frames := frames + [lines[n].record]; }
    }
    assert lines[..|lines|] == lines;
  }

  /** The table and duplicates of a list of records; what tables by line say, said by record. */
  function TableOfRecords(rs: seq<Request>): map<int, Request> {
    if rs == [] then map[]
    else
      var before, r := TableOfRecords(rs[..|rs| - 1]), rs[|rs| - 1];
      if r.sequence.Int? && r.sequence.i !in before then before[r.sequence.i := r] else before
  }

  function DuplicatesOfRecords(rs: seq<Request>): seq<Code> {
    if rs == [] then []
    else
      var n := |rs| - 1;
      var before := DuplicatesOfRecords(rs[..n]);
      if rs[n].sequence.Int? && rs[n].sequence.i in TableOfRecords(rs[..n]) then before + [DuplicateSequence] else before
  }

  lemma RecordAppend(rs: seq<Request>, r: Request)
    ensures TableOfRecords(rs + [r]) == (if r.sequence.Int? && r.sequence.i !in TableOfRecords(rs)
                                         then TableOfRecords(rs)[r.sequence.i := r] else TableOfRecords(rs))
    ensures DuplicatesOfRecords(rs + [r]) == (if r.sequence.Int? && r.sequence.i in TableOfRecords(rs)
                                              then DuplicatesOfRecords(rs) + [DuplicateSequence] else DuplicatesOfRecords(rs))
  {
    assert (rs + [r])[..|rs|] == rs;
  }

  lemma {:induction false} RecordsAreLines(lines: seq<Line<Request>>)
    ensures TableOfRecords(Recognized(lines)) == RequestTable(lines)
    ensures DuplicatesOfRecords(Recognized(lines)) == DuplicateCodes(lines)
  {
    if lines != [] {
      var n := |lines| - 1;
      RecordsAreLines(lines[..n]);
      if RequestCode(lines[n]).None? { RecordAppend(Recognized(lines[..n]), lines[n].record); }
    }
  }

  method SequenceRequests(records: seq<Request>) returns (table: map<int, Request>, codes: seq<Code>)
    ensures table == TableOfRecords(records) && codes == DuplicatesOfRecords(records)
  {
    table, codes := map[], [];
    for n := 0 to |records|
      invariant table == TableOfRecords(records[..n]) && codes == DuplicatesOfRecords(records[..n])
    {
      PrefixNext(records, n);
      var r := records[n];
      if r.sequence.Int? {
        if r.sequence.i in table { codes := codes + [DuplicateSequence]; } else { table := table[r.sequence.i := r]; }
      }
    }
    assert records[..|records|] == records;
  }

  /** The primary-key table of one truth stream; the first record of a key counts. */
  method PhysicsKeyTable(ts: seq<Truth>, key: Truth -> Option<Key>, duplicate: Code)
    returns (table: map<Key, Truth>, codes: seq<Code>)
    ensures table == KeyTable(ts, key) && codes == KeyCodes(ts, key, duplicate)
  {
    table, codes := map[], [];
    for n := 0 to |ts|
      invariant table == KeyTable(ts[..n], key) && codes == KeyCodes(ts[..n], key, duplicate)
    {
      PrefixNext(ts, n);
      var k := key(ts[n]);
      if k.Some? {
        if k.value in table { codes := codes + [duplicate]; } else { table := table[k.value := ts[n]]; }
      }
    }
    assert ts[..|ts|] == ts;
  }

  datatype Tables = Tables(raw: map<Key, Truth>, evaluator: map<Key, Truth>)

  class CaptureJoin {
    const world: World
    var bindings: map<string, Binding>
    var owners: set<Identity>
    var covered: set<int>
    var tables: map<string, Tables>
    var diagnostics: seq<Code>

    ghost predicate Valid()
      reads this
    {
      forall home :: home in tables ==>
        tables[home] == Tables(KeyTable(world.raw(home), RawKey), KeyTable(world.evaluator(home), EvaluatorKey))
    }

    ghost function State(): Join
      reads this
    {
      Join(bindings, owners, covered, tables.Keys, diagnostics)
    }

    constructor (world: World)
      ensures Valid() && State() == Join(map[], {}, {}, {}, []) && this.world == world
    {
      this.world := world;
      bindings, owners, covered, tables, diagnostics := map[], {}, {}, map[], [];
    }

    method Tell(code: Code)
      requires Valid()
      modifies `diagnostics
      ensures Valid() && State() == Say(old(State()), [code])
    {
      diagnostics := diagnostics + [code];
    }

    /** Builds the tables of an attempt directory on first use. */
    method TablesFor(home: string)
      requires Valid()
      modifies this
      ensures Valid() && home in tables && State() == WithTables(world, home, old(State()))
    {
      if home in tables { return; }
      var raw, rawCodes := PhysicsKeyTable(world.raw(home), RawKey, DuplicatePhysicsKey);
      var evaluator, evaluatorCodes := PhysicsKeyTable(world.evaluator(home), EvaluatorKey, DuplicateEvaluatorKey);
      tables := tables[home := Tables(raw, evaluator)];
      diagnostics := diagnostics + (rawCodes + evaluatorCodes);
    }

    method CheckAgainstRequest(r: Request, k: Keyframe)
      requires Valid() && WellFormed(k)
      modifies `diagnostics
      ensures Valid() && State() == Say(old(State()), SoftCodes(r, k))
    {
      var codes := CheckTime(r, k);
      codes := CheckFrame(k, codes);
      codes := CheckLatency(k, codes);
      codes := CheckExecution(r, k, codes);
      diagnostics := diagnostics + codes;
    }

    method CheckTime(r: Request, k: Keyframe) returns (codes: seq<Code>)
      ensures codes == Added([], TimeCode(r, k))
    {
      codes := [];
      var requested, canonical := Number(k.requestedTime), Number(r.time);
      if canonical.Some? {
        if requested.None? {
          codes := codes + [RequestTime];
        } else {
          var dt := Positive(k.dt);
          var tolerance := if dt.Some? then Max(TIME_EPS, 0.5 * dt.value) else TIME_EPS;
          if Exceeds(requested.value, canonical.value, tolerance) { codes := codes + [RequestTime]; }
        }
      }
    }

    method CheckFrame(k: Keyframe, before: seq<Code>) returns (codes: seq<Code>)
      ensures codes == Added(before, FrameCode(k))
    {
      codes := before;
      var expected: Option<int> := None;
      var requested, dt := Finite(k.requestedTime), Positive(k.dt);
      if requested.Some? && dt.Some? { expected := Some((requested.value / dt.value + 0.5).Floor); }
      if !k.requestedFrame.Int? { codes := codes + [RequestFrameInvalid]; }
      else if expected.Some? && k.requestedFrame.i != expected.value { codes := codes + [RequestFrameMismatch]; }
    }

    method CheckLatency(k: Keyframe, before: seq<Code>) returns (codes: seq<Code>)
      requires WellFormed(k)
      ensures codes == Added(before, LatencyCode(k))
    {
      codes := before;
      if k.latency.Missing? {
        codes := codes + [LatencyMissing];
      } else {
        var typeOk := k.latency.Int? && 0 <= k.latency.i <= MAX_CAPTURE_LATENCY_FRAMES;
        if !typeOk { codes := codes + [LatencyOutOfRange]; }
        else if k.requestedFrame.Int? {
          if k.frame.i - k.requestedFrame.i != k.latency.i { codes := codes + [LatencyDelta]; }
        }
      }
    }

    method CheckExecution(r: Request, k: Keyframe, before: seq<Code>) returns (codes: seq<Code>)
      ensures codes == Added(Added(before, ExecutionCode(k)), SourceCode(r, k))
    {
      codes := before;
      if k.execution.Missing? { codes := codes + [ExecutionMissing]; }
      else if !k.execution.Int? || k.execution.i <= 0 { codes := codes + [ExecutionInvalid]; }
      if r.source.Missing? { codes := codes + [SourceMissing]; }
      else if !r.source.Int? || r.source.i <= 0 { codes := codes + [SourceInvalid]; }
      else if k.execution.Int? && k.execution.i != r.source.i { codes := codes + [SourceMismatch]; }
    }

    /** One keyframe of the journal in dir. */
    method JoinKeyframe(dir: string, requests: map<int, Request>, k: Keyframe)
      requires Valid()
      modifies this
      ensures Valid() && State() == JoinStep(world, dir, requests, old(State()), k)
    {
      var structure := StructureCode(k);
      if structure.Some? { Tell(structure.value); return; }
      var id := Identity(dir, k.event.s, k.camera.s);
      if id in owners { Tell(DuplicateIdentity); return; }
      owners := owners + {id};
      if k.sequence.i !in requests { Tell(SequenceOrphan); return; }
      var r := requests[k.sequence.i];
      if r.gate != k.gate || r.event != k.event { Tell(SequenceMismatch); return; }
      covered := covered + {k.sequence.i};
      CheckAgainstRequest(r, k);
      BindImage(dir, k);
    }

    /** The part of the join that looks at the file tree and the truth streams. */
    method BindImage(dir: string, k: Keyframe)
      requires Valid() && WellFormed(k)
      modifies this
      ensures Valid() && State() == JoinImage(world, dir, old(State()), k)
    {
      var path := PathOf(dir, k);
      var im := world.image(path);
      if im.escapes { Tell(PathEscape); return; }
      if !im.present { Tell(MissingImage); return; }
      if im.attempt.None? { Tell(UnboundAttempt); return; }
      if im.declared.Some? && im.declared.value != k.gate.s { Tell(ScenarioMismatch); return; }
      if im.home.None? { Tell(NoAttemptDir); return; }
      TablesFor(im.home.value);
      var bound := false;
      var key, ts := Key(k.gate.s, k.frame.i), tables[im.home.value];
      if key in ts.raw {
        var time := Finite(ts.raw[key].time);
        if time.Some? && key in ts.evaluator { bound := Abs(time.value - Finite(k.time).value) <= Tolerance(k); }
      }
      if !bound { Tell(PhysicsUnbound); return; }
      if path in bindings { Tell(DuplicatePath); return; }
      bindings := bindings[path := Binding(k.event.s, k.gate.s, im.attempt.value, k.event.s, k.sequence.i, k.frame.i,
                                           Finite(k.time).value, k.camera.s)];
    }

    /** Reads both journals of a directory. */
    method OpenJournals(d: Dir) returns (requests: map<int, Request>, frames: seq<Keyframe>)
      requires Valid() && d.keyframes.Some?
      modifies `diagnostics
      ensures Valid() && State() == OpenDir(d, old(State())) && requests == TableOf(d) && frames == Frames(d.keyframes.value)
    {
      requests := map[];
      if d.requests.Some? {
        var records, lineCodes := ReadRequestRecords(d.requests.value);
        var table, duplicates := SequenceRequests(records);
        RecordsAreLines(d.requests.value);
        requests := table;
        diagnostics := diagnostics + (lineCodes + duplicates);
      } else {
        diagnostics := diagnostics + [MissingRequestJournal];
      }
      var keyCodes;
      frames, keyCodes := ReadKeyframes(d.keyframes.value);
      diagnostics := diagnostics + keyCodes;
    }

    /** One directory's two journals. */
    method JoinJournal(d: Dir)
      requires Valid() && d.keyframes.Some?
      modifies this
      ensures Valid() && State() == JoinDir(world, d, old(State()))
    {
      var requests, frames := OpenJournals(d);
      ghost var open := State();
      for n := 0 to |frames|
        invariant Valid() && State() == JoinFrames(StepIn(world, d), open, frames, n)
      {
        JoinKeyframe(d.name, requests, frames[n]);
      }
    }

    /** Driving requests that no keyframe has joined. */
    method CheckCoverage(lines: seq<Line<Request>>) returns (codes: seq<Code>)
      ensures codes == RequestLineCodes(lines) + UncoveredCodes(lines, covered)
    {
      var records, lineCodes := ReadRequestRecords(lines);
      codes := lineCodes;
      for n := 0 to |records|
        invariant codes == lineCodes + UncoveredRecords(records[..n], covered)
      {
        PrefixNext(records, n);
        if records[n].sequence.Int? && records[n].sequence.i !in covered { codes := codes + [RequestWithoutImage]; }
      }
      assert records[..|records|] == records;
      UncoveredAreLines(lines, covered);
    }

    method LoadCaptureBindings(dirs: seq<Dir>)
      requires Valid() && State() == Join(map[], {}, {}, {}, [])
      modifies this
      ensures Valid() && State() == Load(world, dirs)
    {
      for n := 0 to |dirs|
        invariant Valid() && State() == JoinDirs(world, dirs, n)
      {
        if dirs[n].keyframes.Some? { JoinJournal(dirs[n]); }
      }
      ghost var joined := State();
      for n := 0 to |dirs|
        invariant Valid() && State() == Say(joined, CoverageCodes(dirs, joined.covered, n))
      {
        if dirs[n].requests.Some? {
          var codes := CheckCoverage(dirs[n].requests.value);
          diagnostics := diagnostics + codes;
        }
      }
    }
  }

  function UncoveredRecords(rs: seq<Request>, covered: set<int>): seq<Code> {
    if rs == [] then []
    else
      var before, r := UncoveredRecords(rs[..|rs| - 1], covered), rs[|rs| - 1];
      if r.sequence.Int? && r.sequence.i !in covered then before + [RequestWithoutImage] else before
  }

  lemma {:induction false} UncoveredAreLines(lines: seq<Line<Request>>, covered: set<int>)
    ensures UncoveredRecords(Recognized(lines), covered) == UncoveredCodes(lines, covered)
  {
    if lines != [] {
      var n := |lines| - 1;
      UncoveredAreLines(lines[..n], covered);
      if RequestCode(lines[n]).None? {
        var rs := Recognized(lines[..n]);
        assert (rs + [lines[n].record])[..|rs|] == rs;
      }
    }
  }
}
