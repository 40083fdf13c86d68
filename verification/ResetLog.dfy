/** The log of resets: each accepted trial start is within tolerance of the first of its session. */
module ResetLog {
  import opened Geometry
  import opened Reset
  import opened ResetRun

  /** One logged reset. session is None if the simulator's identity was not known. */
  datatype Record = Record(session: Option<string>, truth: Pose)

  /** What follows the last newline of the file: nothing, a torn record, or a record that lacks only
      its newline, which reads like any other until something is appended to it. */
  datatype Tail = Empty | Torn | Unended(record: Record)

  datatype Log = Log(lines: seq<Record>, tail: Tail) {
    /** The records a reader sees; a line that does not parse is skipped. */
    function Records(): seq<Record> { if tail.Unended? then lines + [tail.record] else lines }
  }

  /** How much of a record reaches the file before the process is killed. */
  datatype Written = Nothing | Part | AllButNewline | Whole

  function Appended(log: Log, r: Record, written: Written): Log {
    match written
    case Nothing => log
    case Part => log.(tail := Torn)
    case AllButNewline => log.(tail := if log.tail.Empty? then Unended(r) else Torn)
    case Whole => if log.tail.Empty? then log.(lines := log.lines + [r]) else log.(tail := Empty)
  }

  /** What a reader sees after a write: a whole record is one more, unless the file ended in the middle of a line,
      which it then runs into; without its newline it is one more all the same; a part of one is nothing. Every
      line that was complete stays. */
  lemma AppendedReads(log: Log, r: Record, written: Written)
    ensures var after := Appended(log, r, written).Records();
      && log.lines <= after && (written.Nothing? ==> after == log.Records())
      && (written.Whole? || written.AllButNewline? ==> after == if log.tail.Empty? then log.lines + [r] else log.lines)
      && (written.Part? ==> after == log.lines)
    ensures Appended(log, r, written).tail.Empty? <==> written.Whole? || (written.Nothing? && log.tail.Empty?)
  {
  }

  /** The first logged start of a session. */
  function FirstOf(records: seq<Record>, session: Option<string>): Option<Pose> {
    if records == [] then None
    else if records[0].session == session then Some(records[0].truth)
    else FirstOf(records[1..], session)
  }

  /** What a new start is compared with: nothing when the session is unknown. */
  function SessionReference(records: seq<Record>, session: Option<string>): Option<Pose> {
    if session.None? then None else FirstOf(records, session)
  }

  method ReadReference(records: seq<Record>, session: Option<string>) returns (reference: Option<Pose>)
    ensures reference == SessionReference(records, session)
  {
    if session.None? { return None; }
    for i := 0 to |records|
      invariant FirstOf(records, session) == FirstOf(records[i..], session)
    {
      assert records[i..][1..] == records[i + 1..];
      if records[i].session == session { return Some(records[i].truth); }
    }
    return None;
  }

  // --------------------------------------------------------------------- runs

  /** One invocation: the session it finds, where the robot ends up after an otherwise successful
      reset, and how much of its record is written. */
  datatype Run = Run(session: Option<string>, truth: Pose, written: Written)

  /** A start away from the session's reference is refused and not logged. */
  predicate Accepts(records: seq<Record>, run: Run, tolM: real, tolDeg: real) {
    var reference := SessionReference(records, run.session);
    reference.None? || Near(run.truth, reference.value, tolM, tolDeg)
  }

  function After(log: Log, run: Run, tolM: real, tolDeg: real): Log {
    if Accepts(log.Records(), run, tolM, tolDeg) then Appended(log, Record(run.session, run.truth), run.written) else log
  }

  /** The log after the first n runs, starting from no file. */
  function LogAfter(runs: seq<Run>, tolM: real, tolDeg: real, n: nat): Log
    requires n <= |runs|
  {
    if n == 0 then Log([], Empty) else After(LogAfter(runs, tolM, tolDeg, n - 1), runs[n - 1], tolM, tolDeg)
  }

  /** The log as a file, appended to by each successful invocation. */
  class LogFile {
    var log: Log

    constructor ()
      ensures log == Log([], Empty)
    {
      log := Log([], Empty);
    }

    method Append(r: Record, written: Written)
      modifies this
      ensures log == Appended(old(log), r, written)
    {
      log := Appended(log, r, written);
    }
  }

  /** One invocation of the tool. Whatever the client does, the log moves as the model says: it is
      unchanged after a failure, and otherwise moves by one accepted run. */
  method RunOnce(client: Client, file: LogFile, spawn: Option<Pose>, session: Option<string>, tolM: real, tolDeg: real,
              written: Written)
    returns (code: int, ghost run: Run, ghost actions: seq<string>, ghost tr: seq<Op>)
    modifies client, file
    ensures client.trace == old(client.trace) + tr
    ensures spawn.Some? ==> TraceSafe(tr, actions, spawn.value, HOLD)
    ensures code != 0 ==> file.log == old(file.log)
    ensures var reference := SessionReference(old(file.log).Records(), session);
      code == if spawn.Some? && EndsWell(tr, actions, spawn.value, reference, tolM, tolDeg) then 0 else 1
    ensures code == 0 ==>
      && spawn.Some? && tr != [] && tr[|tr| - 1] == Truth(Got(run.truth)) && Near(run.truth, spawn.value, SPAWN_M, SPAWN_DEG)
      && run.session == session && run.written == written && Accepts(old(file.log).Records(), run, tolM, tolDeg)
      && file.log == After(old(file.log), run, tolM, tolDeg)
      && (written.Whole? && old(file.log).tail.Empty? ==>
            file.log.Records() == old(file.log).Records() + [Record(session, run.truth)])
  {
    run, actions, tr := Run(session, Pose(0.0, 0.0, 0.0), written), [], [];
    if spawn.None? { return 1, run, actions, tr; }
    var reference := ReadReference(file.log.Records(), session);
    var r;
    r, actions, tr := RunReset(client, spawn.value, reference, tolM, tolDeg, 20.0, 0.2, 9.0);
    if r.Err? { return 1, run, actions, tr; }
    run := Run(session, r.value.truth, written);
    file.Append(Record(session, r.value.truth), written);
    code := 0;
  }

  // ------------------------------------------------------------ the log invariant

  predicate SteadyAt(records: seq<Record>, tolM: real, tolDeg: real, i: nat)
    requires i < |records|
  {
    var first := FirstOf(records, records[i].session);
    first.Some? && (first.value == records[i].truth || Near(records[i].truth, first.value, tolM, tolDeg))
  }

  /** Every record of a known session is at its session's first start or within tolerance of it. */
  predicate Steady(records: seq<Record>, tolM: real, tolDeg: real) {
    forall i :: 0 <= i < |records| && records[i].session.Some? ==> SteadyAt(records, tolM, tolDeg, i)
  }

  lemma {:induction false} FirstOfAppend(records: seq<Record>, r: Record, session: Option<string>)
    ensures FirstOf(records + [r], session) ==
      if FirstOf(records, session).Some? then FirstOf(records, session)
      else if r.session == session then Some(r.truth) else None
  {
    if records == [] {
      assert [r][1..] == [];
      assert [] + [r] == [r];
    } else {
      assert (records + [r])[1..] == records[1..] + [r] && (records + [r])[0] == records[0];
      FirstOfAppend(records[1..], r, session);
    }
  }

  lemma {:induction false} FirstOfHas(records: seq<Record>, i: nat)
    requires i < |records|
    ensures FirstOf(records, records[i].session).Some?
  {
    if i > 0 { FirstOfHas(records[1..], i - 1); }
  }

  lemma SteadyAppend(records: seq<Record>, r: Record, tolM: real, tolDeg: real)
    requires Steady(records, tolM, tolDeg)
    requires r.session.Some? ==>
      FirstOf(records, r.session).None? || Near(r.truth, FirstOf(records, r.session).value, tolM, tolDeg)
    ensures Steady(records + [r], tolM, tolDeg)
  {
    var more := records + [r];
    forall i | 0 <= i < |more| && more[i].session.Some? ensures SteadyAt(more, tolM, tolDeg, i) {
      FirstOfAppend(records, r, more[i].session);
      if i < |records| { assert SteadyAt(records, tolM, tolDeg, i); }
    }
  }

  lemma SteadyPrefix(records: seq<Record>, r: Record, tolM: real, tolDeg: real)
    requires Steady(records + [r], tolM, tolDeg)
    ensures Steady(records, tolM, tolDeg)
  {
    var more := records + [r];
    forall i | 0 <= i < |records| && records[i].session.Some? ensures SteadyAt(records, tolM, tolDeg, i) {
      assert SteadyAt(more, tolM, tolDeg, i) && more[i] == records[i];
      FirstOfAppend(records, r, records[i].session);
      FirstOfHas(records, i);
    }
  }

  lemma StepKeepsSteady(log: Log, run: Run, tolM: real, tolDeg: real)
    requires Steady(log.Records(), tolM, tolDeg)
    ensures Steady(After(log, run, tolM, tolDeg).Records(), tolM, tolDeg)
  {
    if log.tail.Unended? { SteadyPrefix(log.lines, log.tail.record, tolM, tolDeg); }
    if log.tail.Empty? && Accepts(log.lines, run, tolM, tolDeg) {
      SteadyAppend(log.lines, Record(run.session, run.truth), tolM, tolDeg);
    }
  }

  /** In every log produced by any runs, killed at any point of their writing, every readable record of
      a known session is within tolerance of the first readable record of that session. */
  lemma {:induction false} LogStaysSteady(runs: seq<Run>, tolM: real, tolDeg: real, n: nat)
    requires n <= |runs|
    ensures Steady(LogAfter(runs, tolM, tolDeg, n).Records(), tolM, tolDeg)
  {
    if n > 0 {
      LogStaysSteady(runs, tolM, tolDeg, n - 1);
      StepKeepsSteady(LogAfter(runs, tolM, tolDeg, n - 1), runs[n - 1], tolM, tolDeg);
    }
  }

  // ------------------------------------------------------------------ summarizing

  /** All starts of each session, the unknown one included, are within tolerance of its first. */
  predicate AllNear(records: seq<Record>, tolM: real, tolDeg: real) {
    forall i :: 0 <= i < |records| ==> NearFirst(records, tolM, tolDeg, i)
  }

  predicate NearFirst(records: seq<Record>, tolM: real, tolDeg: real, i: nat)
    requires i < |records|
  {
    var first := FirstOf(records, records[i].session);
    first.Some? && Near(records[i].truth, first.value, tolM, tolDeg)
  }

  /** worst bounds what e takes over the first n indices, and is taken there or is zero. */
  ghost predicate IsWorst(worst: real, e: nat -> real, n: nat) {
    (forall i: nat :: i < n ==> e(i) <= worst) && (worst == 0.0 || exists i: nat :: i < n && e(i) == worst)
  }

  function ErrorM2(records: seq<Record>): nat -> real {
    (i: nat) => if i < |records| && FirstOf(records, records[i].session).Some?
      then Distance2(records[i].truth, FirstOf(records, records[i].session).value) else 0.0
  }

  function ErrorDeg(records: seq<Record>): nat -> real {
    (i: nat) => if i < |records| && FirstOf(records, records[i].session).Some?
      then DegError(records[i].truth, FirstOf(records, records[i].session).value) else 0.0
  }

  /** After n records, each session met has its first start. */
  ghost predicate Firsts(firsts: map<Option<string>, Pose>, records: seq<Record>, n: nat)
    requires n <= |records|
  {
    forall s :: if s in firsts then FirstOf(records, s) == Some(firsts[s]) else FirstOf(records[..n], s).None?
  }

  lemma {:induction false} FirstOfMore(records: seq<Record>, n: nat, s: Option<string>)
    requires n < |records| && FirstOf(records[..n], s).None? && records[n].session == s
    ensures FirstOf(records, s) == Some(records[n].truth)
  {
    if n > 0 {
      assert records[..n][1..] == records[1..][..n - 1];
      FirstOfMore(records[1..], n - 1, s);
    }
  }

  lemma FirstsNext(firsts: map<Option<string>, Pose>, records: seq<Record>, n: nat, after: map<Option<string>, Pose>)
    requires n < |records| && Firsts(firsts, records, n)
    requires after == if records[n].session in firsts then firsts else firsts[records[n].session := records[n].truth]
    ensures Firsts(after, records, n + 1)
    ensures FirstOf(records, records[n].session) == Some(after[records[n].session])
  {
    var session := records[n].session;
    if session !in firsts { FirstOfMore(records, n, session); }
    forall s ensures if s in after then FirstOf(records, s) == Some(after[s]) else FirstOf(records[..n + 1], s).None? {
      assert records[..n + 1] == records[..n] + [records[n]];
      FirstOfAppend(records[..n], records[n], s);
    }
  }

  /** The worst squared distance and the worst yaw error against each session's first start. */
  method StartPoseSpread(records: seq<Record>) returns (worstM2: real, worstDeg: real)
    ensures IsWorst(worstM2, ErrorM2(records), |records|) && worstM2 >= 0.0
    ensures IsWorst(worstDeg, ErrorDeg(records), |records|) && worstDeg >= 0.0
  {
    var firsts: map<Option<string>, Pose> := map[];
    worstM2, worstDeg := 0.0, 0.0;
    for n := 0 to |records|
      invariant Firsts(firsts, records, n)
      invariant IsWorst(worstM2, ErrorM2(records), n) && worstM2 >= 0.0
      invariant IsWorst(worstDeg, ErrorDeg(records), n) && worstDeg >= 0.0
    {
      var session, pose := records[n].session, records[n].truth;
      ghost var before := firsts;
      if session !in firsts { firsts := firsts[session := pose]; }
      FirstsNext(before, records, n, firsts);
      worstM2 := Worse(worstM2, Distance2(pose, firsts[session]), ErrorM2(records), n);
      worstDeg := Worse(worstDeg, DegError(pose, firsts[session]), ErrorDeg(records), n);
    }
  }

  function Worse(worst: real, error: real, ghost e: nat -> real, ghost n: nat): (w: real)
    requires IsWorst(worst, e, n) && e(n) == error
    ensures w == Max(worst, error) && IsWorst(w, e, n + 1)
  {
    Max(worst, error)
  }

  /** Whether a batch passes: there are records, and no start is out of tolerance. */
  method Summarize(records: seq<Record>, tolM: real, tolDeg: real) returns (code: int)
    ensures code == 0 || code == 1
    ensures code == 0 <==> records != [] && AllNear(records, tolM, tolDeg)
  {
    if records == [] { return 1; }
    var worstM2, worstDeg := StartPoseSpread(records);
    var ok := tolM >= 0.0 && worstM2 <= tolM * tolM && worstDeg <= tolDeg;
    SpreadDecides(records, worstM2, worstDeg, tolM, tolDeg);
    code := if ok then 0 else 1;
  }

  lemma SpreadDecides(records: seq<Record>, worstM2: real, worstDeg: real, tolM: real, tolDeg: real)
    requires records != [] && worstM2 >= 0.0 && worstDeg >= 0.0
    requires IsWorst(worstM2, ErrorM2(records), |records|) && IsWorst(worstDeg, ErrorDeg(records), |records|)
    ensures tolM >= 0.0 && worstM2 <= tolM * tolM && worstDeg <= tolDeg <==> AllNear(records, tolM, tolDeg)
  {
    forall i: nat | i < |records|
      ensures NearFirst(records, tolM, tolDeg, i) <==>
              tolM >= 0.0 && ErrorM2(records)(i) <= tolM * tolM && ErrorDeg(records)(i) <= tolDeg
    {
      FirstOfHas(records, i);
    }
    FirstNearItself(records, tolM, tolDeg);
    assert tolM >= 0.0 ==> tolM * tolM >= 0.0;
  }

  lemma FirstNearItself(records: seq<Record>, tolM: real, tolDeg: real)
    requires records != []
    ensures NearFirst(records, tolM, tolDeg, 0) <==> tolM >= 0.0 && tolDeg >= 0.0
  {
    NearItself(records[0].truth, tolM, tolDeg);
  }

  /** A log produced with the tolerances it is summarized with passes exactly when it is not empty, the
      tolerances are not negative, and the starts of unknown sessions - which nothing checked - happen
      to be within tolerance of the first of them. */
  lemma LogPasses(runs: seq<Run>, tolM: real, tolDeg: real)
    ensures var records := LogAfter(runs, tolM, tolDeg, |runs|).Records();
      records != [] && AllNear(records, tolM, tolDeg) <==>
      records != [] && tolM >= 0.0 && tolDeg >= 0.0
      && forall i :: 0 <= i < |records| && records[i].session.None? ==> NearFirst(records, tolM, tolDeg, i)
  {
    var records := LogAfter(runs, tolM, tolDeg, |runs|).Records();
    LogStaysSteady(runs, tolM, tolDeg, |runs|);
    if records != [] { FirstNearItself(records, tolM, tolDeg); }
    if tolM >= 0.0 && tolDeg >= 0.0 {
      forall i | 0 <= i < |records| && records[i].session.Some? ensures NearFirst(records, tolM, tolDeg, i) {
        assert SteadyAt(records, tolM, tolDeg, i);
        NearItself(records[i].truth, tolM, tolDeg);
      }
    }
  }

  /** Two starts a metre apart pass every check of a run when the session is unknown; the batch fails. */
  lemma UnknownSessionsDrift()
    ensures var runs := [Run(None, Pose(0.0, 0.0, 0.0), Whole), Run(None, Pose(1.0, 0.0, 0.0), Whole)];
      var records := LogAfter(runs, 0.05, 2.0, 2).Records();
      |records| == 2 && !AllNear(records, 0.05, 2.0)
  {
    var a, b := Run(None, Pose(0.0, 0.0, 0.0), Whole), Run(None, Pose(1.0, 0.0, 0.0), Whole);
    var runs := [a, b];
    assert LogAfter(runs, 0.05, 2.0, 0) == Log([], Empty);
    assert LogAfter(runs, 0.05, 2.0, 1) == Log([Record(None, a.truth)], Empty);
    assert LogAfter(runs, 0.05, 2.0, 2) == Log([Record(None, a.truth), Record(None, b.truth)], Empty);
    assert !NearFirst(LogAfter(runs, 0.05, 2.0, 2).Records(), 0.05, 2.0, 1);
  }
}
