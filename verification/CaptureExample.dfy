/** A suite without diagnostics in which one request has no image in its own directory: the conditions of
    module CaptureLaws can be met, and its exception occurs. */
module CaptureExample {
  import opened Geometry
  import opened Capture
  import opened CaptureLaws

  const PATH := "visual/source/x.png"

  function RequestOf(n: int): Request {
    Request(Int(n), Str("g"), Str("e"), Missing, Missing, false, Missing, Missing, Int(1))
  }

  function FrameOf(n: int): Keyframe {
    Keyframe(Str("g"), Str("e"), Str("c"), Str(PATH), Int(n), Int(0), Float(Fin(0.0)), Missing, Missing, Int(0), Int(0), Int(1))
  }

  const TRUTH := Truth(Str("g"), Int(0), Float(Fin(0.0)), None)

  /** Every image is there, in an attempt of its own directory; each attempt has one record of frame 0. */
  function Files(): World {
    World(p => Image(false, true, Some(AttemptOf(p)), None, Some(AttemptOf(p))), _ => [TRUTH], _ => [TRUTH])
  }

  function AttemptOf(path: string): string { if path == [] then [] else path[..1] }

  /** Request 1 with its keyframe; and a second directory with a keyframe of request 2, but none of request 1. */
  const FIRST := Dir("a/", Some([Entry(FrameOf(1))]), Some([Entry(RequestOf(1))]))

  const SECOND := Dir("b/", Some([Entry(FrameOf(2))]), Some([Entry(RequestOf(1)), Entry(RequestOf(2))]))

  lemma PathIsPlain()
    ensures Slashes(PATH) == PATH && !Traverses(PATH) && IsCanonical(PATH)
  {
    var p := PATH;
    assert forall i :: 0 <= i < |p| ==> p[i] != '\\';
    assert forall i :: 0 <= i < |p| && p[i] == '.' ==> i == 15;
    assert p[|p| - 4..] == ".png";
    assert "visual/source/" <= p;
  }

  lemma FrameIsWellFormed(n: int)
    requires n > 0
    ensures WellFormed(FrameOf(n)) && Agrees(RequestOf(n), FrameOf(n)) && Drives(Entry(RequestOf(n)))
  {
    PathIsPlain();
  }

  lemma OneRecord()
    ensures KeyTable([TRUTH], RawKey) == map[Key("g", 0) := TRUTH] && KeyTable([TRUTH], EvaluatorKey) == map[Key("g", 0) := TRUTH]
    ensures KeyCodes([TRUTH], RawKey, DuplicatePhysicsKey) == [] && KeyCodes([TRUTH], EvaluatorKey, DuplicateEvaluatorKey) == []
  {
    assert [TRUTH][..0] == [];
  }

  lemma FrameIsGood(d: Dir, st: Join, n: int)
    requires n > 0 && n in TableOf(d) && TableOf(d)[n] == RequestOf(n)
    requires Identity(d.name, "e", "c") !in st.owners && d.name + PATH !in st.bindings
    ensures Good(Files(), d.name, TableOf(d), st, FrameOf(n))
  {
    FrameIsWellFormed(n);
    PathIsPlain();
    OneRecord();
  }

  lemma OneLine(k: Keyframe, lines: seq<Line<Keyframe>>)
    requires lines == [Entry(k)]
    ensures KeyLineCodes(lines) == [] && Frames(lines) == [k]
  {
    assert lines[..0] == [] && Frames([]) == [];
    assert [] + [k] == [k];
  }

  /** A directory with one keyframe, which is good. */
  lemma OneFrameJoins(w: World, d: Dir, st: Join, k: Keyframe)
    requires d.keyframes == Some([Entry(k)]) && d.requests.Some?
    requires RequestLineCodes(d.requests.value) == [] && DuplicateCodes(d.requests.value) == []
    requires Good(w, d.name, TableOf(d), st, k)
    ensures JoinDir(w, d, st) == Joined(w, d.name, st, k)
  {
    OneLine(k, d.keyframes.value);
    assert OpenDir(d, st) == st;
    StepGood(w, d.name, TableOf(d), st, k);
    assert JoinFrames(StepIn(w, d), st, [k], 0) == st;
  }

  lemma FirstRequests(lines: seq<Line<Request>>)
    requires lines == [Entry(RequestOf(1))]
    ensures RequestLineCodes(lines) == [] && DuplicateCodes(lines) == [] && RequestTable(lines) == map[1 := RequestOf(1)]
  {
    FrameIsWellFormed(1);
    assert lines[..0] == [];
  }

  lemma SecondRequests(lines: seq<Line<Request>>)
    requires lines == [Entry(RequestOf(1)), Entry(RequestOf(2))]
    ensures RequestLineCodes(lines) == [] && DuplicateCodes(lines) == []
    ensures RequestTable(lines) == map[1 := RequestOf(1), 2 := RequestOf(2)]
  {
    FrameIsWellFormed(2);
    var one: seq<Line<Request>> := [Entry(RequestOf(1))];
    assert lines[..1] == one;
    FirstRequests(one);
  }

  lemma NumbersOf(d: Dir, n: int)
    requires d.keyframes == Some([Entry(FrameOf(n))])
    ensures NumbersIn(d) == {n}
  {
    OneLine(FrameOf(n), d.keyframes.value);
    assert FrameOf(n) in [FrameOf(n)];
  }

  lemma FirstIsClean()
    ensures Load(Files(), [FIRST]).diags == [] && AllNumbers([FIRST], 1) == {1}
    ensures JoinDirs(Files(), [FIRST], 1).owners == {Identity("a/", "e", "c")}
    ensures JoinDirs(Files(), [FIRST], 1).bindings.Keys == {"a/" + PATH}
  {
    var none := Join(map[], {}, {}, {}, []);
    FirstRequests(FIRST.requests.value);
    FrameIsGood(FIRST, none, 1);
    OneFrameJoins(Files(), FIRST, none, FrameOf(1));
    NumbersOf(FIRST, 1);
    PathIsPlain();
    assert [] + [FIRST] == [FIRST] && [FIRST][0] == FIRST;
    assert JoinDirs(Files(), [], 0) == none && JoinDirs(Files(), [FIRST], 0) == none;
    assert AllNumbers([], 0) == {} && AllNumbers([FIRST], 0) == {};
    OneMoreDirectory(Files(), [], FIRST);
  }

  /** The second directory is let through although its request 1 has no image there: the first one's
      keyframe covers the number. */
  lemma HiddenRequest()
    ensures Load(Files(), [FIRST, SECOND]).diags == []
    ensures Requests(SECOND, 1) && NumbersIn(SECOND) == {2} && !OwnImages(SECOND)
  {
    FirstIsClean();
    SecondJoins(JoinDirs(Files(), [FIRST], 1));
    NumbersOf(SECOND, 2);
    LoadIsClean(Files(), [FIRST]);
    SecondAsks();
    SharedNumbersHide(Files(), [FIRST], SECOND, 1);
    assert [FIRST] + [SECOND] == [FIRST, SECOND];
  }

  lemma SecondJoins(st: Join)
    requires st.owners == {Identity("a/", "e", "c")} && st.bindings.Keys == {"a/" + PATH}
    ensures JoinDir(Files(), SECOND, st).diags == st.diags
  {
    SecondRequests(SECOND.requests.value);
    assert ("a/" + PATH)[0] != ("b/" + PATH)[0];
    FrameIsGood(SECOND, st, 2);
    OneFrameJoins(Files(), SECOND, st, FrameOf(2));
  }

  lemma SecondAsks()
    ensures Requests(SECOND, 1) && Covered(SECOND, {1, 2})
  {
    SecondRequests(SECOND.requests.value);
    FrameIsWellFormed(1);
    assert Drives(SECOND.requests.value[0]);
  }
}
