/** What an evidence index holds, file by file, what each reason against one means, and which files the
    tool changes. */
module EvidenceRecords {
  import opened Geometry
  import opened EvidenceIndex
  import opened EvidenceIndexLaws

  // -------------------------------------------------------------------- names

  /** The part of the path after its last slash. */
  predicate LastPart(path: string, name: string) {
    && |name| <= |path| && path[|path| - |name|..] == name && (forall i :: 0 <= i < |name| ==> name[i] != '/')
    && (|name| < |path| ==> path[|path| - |name| - 1] == '/')
  }

  lemma {:induction false} BaseNameIsLast(path: string)
    ensures LastPart(path, BaseName(path))
  {
    if path != [] && path[|path| - 1] != '/' {
      BaseNameIsLast(path[..|path| - 1]);
      OneMore(path, BaseName(path[..|path| - 1]));
    }
  }

  lemma OneMore(path: string, name: string)
    requires path != [] && path[|path| - 1] != '/' && LastPart(path[..|path| - 1], name)
    ensures LastPart(path, name + [path[|path| - 1]])
  {
    var n, before := |path| - 1, path[..|path| - 1];
    var more := name + [path[n]];
    forall i | 0 <= i < |more| ensures more[i] != '/' { assert i < |name| ==> more[i] == name[i]; }
    if |name| < n { assert path[n - |name| - 1] == before[n - |name| - 1]; }
    Suffix(path, n, n - |name|);
  }

  lemma Suffix(path: string, n: nat, i: nat)
    requires |path| == n + 1 && i <= n
    ensures path[i..] == path[..n][i..] + [path[n]]
  {
  }

  lemma OneLastPart(path: string, a: string, b: string)
    requires LastPart(path, a) && LastPart(path, b) && |a| <= |b|
    ensures a == b
  {
    var m := |path| - |b|;
    assert forall i :: 0 <= i < |b| ==> path[m..][i] != '/';
    assert forall i :: m <= i < |path| ==> path[i] == path[m..][i - m];
  }

  lemma BaseNameLaw(path: string, name: string)
    ensures LastPart(path, name) <==> BaseName(path) == name
  {
    BaseNameIsLast(path);
    if LastPart(path, name) {
      if |name| <= |BaseName(path)| { OneLastPart(path, name, BaseName(path)); } else { OneLastPart(path, BaseName(path), name); }
    }
  }

  /** The two paths agree up to k, and there the first ends or has the smaller character. */
  predicate FirstDifference(a: string, b: string, k: nat) {
    k <= |a| && k < |b| && a[..k] == b[..k] && (k == |a| || a[k] < b[k])
  }

  /** The order of paths is that of the dictionary. */
  lemma {:induction false} LessLaw(a: string, b: string)
    ensures Less(a, b) <==> exists k: nat :: k < |b| && FirstDifference(a, b, k)
  {
    if b == [] || a == [] || a[0] != b[0] {
      if b != [] && (a == [] || a[0] < b[0]) { assert FirstDifference(a, b, 0); }
    } else {
      LessLaw(a[1..], b[1..]);
      if Less(a, b) {
        var k: nat :| k < |b[1..]| && FirstDifference(a[1..], b[1..], k);
        assert a[..k + 1] == [a[0]] + a[1..][..k] && b[..k + 1] == [b[0]] + b[1..][..k];
        assert FirstDifference(a, b, k + 1);
      }
      if k: nat :| k < |b| && FirstDifference(a, b, k) {
        assert a[1..][..k - 1] == a[..k][1..] && b[1..][..k - 1] == b[..k][1..];
        assert FirstDifference(a[1..], b[1..], k - 1);
      }
    }
  }

  // --------------------------------------------------------------- what is kept

  /** How many of the first i are kept. */
  function Kept(keeps: seq<bool>, i: nat): nat
    requires i <= |keeps|
  {
    if i == 0 then 0 else Kept(keeps, i - 1) + if keeps[i - 1] then 1 else 0
  }

  lemma {:induction false} KeptAfter(keeps: seq<bool>, i: nat)
    requires i < |keeps|
    ensures Kept(keeps, i + 1) == Kept(keeps[1..], i) + if keeps[0] then 1 else 0
  {
    if i > 0 { KeptAfter(keeps, i - 1); }
  }

  function Filter<T>(xs: seq<T>, keeps: seq<bool>): seq<T>
    requires |xs| == |keeps|
  {
    if xs == [] then []
    else if keeps[0] then [xs[0]] + Filter(xs[1..], keeps[1..]) else Filter(xs[1..], keeps[1..])
  }

  /** What is kept is complete and in order: element i is there exactly if it is kept, after as many as are kept
      before it, and nothing else is. */
  lemma {:induction false} FilterLaw<T>(xs: seq<T>, keeps: seq<bool>)
    requires |xs| == |keeps|
    ensures |Filter(xs, keeps)| == Kept(keeps, |xs|)
    ensures forall i :: 0 <= i < |xs| && keeps[i] ==>
      Kept(keeps, i) < |Filter(xs, keeps)| && Filter(xs, keeps)[Kept(keeps, i)] == xs[i]
  {
    if xs != [] {
      FilterLaw(xs[1..], keeps[1..]);
      KeptAfter(keeps, |xs| - 1);
      forall i | 0 <= i < |xs| && keeps[i]
        ensures Kept(keeps, i) < |Filter(xs, keeps)| && Filter(xs, keeps)[Kept(keeps, i)] == xs[i]
      {
        if i > 0 { KeptAfter(keeps, i - 1); }
      }
    }
  }

  /** The file belongs to the evidence proper: it is not the output, nor a summary by name and content. */
  predicate Proper(n: Node, output: Option<string>) {
    Some(n.path) != output && !(n.doc.SummaryDoc? && LastPart(n.path, SUMMARY_NAME))
  }

  function Propers(suite: seq<Node>, output: Option<string>): seq<bool> {
    seq(|suite|, i requires 0 <= i < |suite| => Proper(suite[i], output))
  }

  lemma ProperLaw(n: Node, output: Option<string>)
    ensures Proper(n, output) <==> Some(n.path) != output && !(IsSummary(n.path) && n.doc.SummaryDoc?)
  {
    BaseNameLaw(n.path, SUMMARY_NAME);
  }

  /** The evidence proper is complete and in order. */
  lemma {:induction false} EvidenceIs(suite: seq<Node>, output: Option<string>)
    ensures Evidence(suite, output) == Filter(suite, Propers(suite, output))
  {
    if suite != [] {
      EvidenceIs(suite[1..], output);
      ProperLaw(suite[0], output);
      assert Propers(suite[1..], output) == Propers(suite, output)[1..];
    }
  }

  /** What an entry says of a file. */
  predicate SaysOf(w: World, an: Analysis, e: Entry, n: Node) {
    && e.path == n.path && e.sha == Hex(OfDoc(n.doc)) && e.size == w.sizeOf(n.doc) && e.extra == w.describe(an, n.path, n.doc)
  }

  /** The name of a file that is still being written: it starts like one of the known ones. */
  ghost predicate Temporary(path: string) {
    exists name :: LastPart(path, name) && exists i :: 0 <= i < |TEMP_PREFIXES| && TEMP_PREFIXES[i] <= name
  }

  lemma TemporaryLaw(path: string)
    ensures Temporary(path) <==> IsTemp(path)
  {
    BaseNameIsLast(path);
    if Temporary(path) {
      var name :| LastPart(path, name) && exists i :: 0 <= i < |TEMP_PREFIXES| && TEMP_PREFIXES[i] <= name;
      BaseNameLaw(path, name);
    }
  }

  ghost function Indexed(suite: seq<Node>, output: Option<string>): seq<bool> {
    seq(|suite|, i requires 0 <= i < |suite| => Some(suite[i].path) != output && !Temporary(suite[i].path))
  }

  lemma IndexedLaw(n: Node, output: Option<string>)
    ensures (Some(n.path) != output && !Temporary(n.path)) <==> IsIndexed(n, output)
  {
    TemporaryLaw(n.path);
  }

  /** There is one entry for each file, in order, but for the output and temporary files, and no other. */
  lemma {:induction false} EntriesAre(w: World, an: Analysis, suite: seq<Node>, output: Option<string>)
    ensures var es, nodes := Entries(w, an, suite, output), Filter(suite, Indexed(suite, output));
      |es| == |nodes| && forall k :: 0 <= k < |es| ==> SaysOf(w, an, es[k], nodes[k])
  {
    if suite != [] {
      EntriesAre(w, an, suite[1..], output);
      IndexedLaw(suite[0], output);
      assert Indexed(suite[1..], output) == Indexed(suite, output)[1..];
    }
  }

  /** The rest of an index: every diagnostic of the capture join and then the others, the scenarios, and the
      checksum of all that. */
  lemma IndexHolds(w: World, suite: seq<Node>, output: Option<string>)
    ensures var an, index := w.analyse(Evidence(suite, output)), IndexOf(w, suite, output);
      var diags, n := index.payload.diagnostics, |an.capture|;
      && |diags| == n + |an.other| && (forall k :: 0 <= k < n ==> diags[k] == FromCapture(an.capture[k]))
      && (forall k :: 0 <= k < |an.other| ==> diags[n + k] == an.other[k])
      && index.payload.files == Entries(w, an, suite, output) && index.payload.scenarios == an.scenarios
      && index.checksum == Some(OfPayload(index.payload))
  {
  }

  predicate NotSummary(path: string) { !LastPart(path, SUMMARY_NAME) }

  function Others(es: seq<Entry>): seq<bool> { seq(|es|, i requires 0 <= i < |es| => NotSummary(es[i].path)) }

  lemma NotSummaryLaw(path: string)
    ensures NotSummary(path) <==> !IsSummary(path)
  {
    BaseNameLaw(path, SUMMARY_NAME);
  }

  /** What is left of an index without its summaries: the other entries, in order. */
  lemma {:induction false} OthersAre(es: seq<Entry>)
    ensures WithoutSummary(es) == Filter(es, Others(es))
  {
    if es != [] {
      OthersAre(es[1..]);
      NotSummaryLaw(es[0].path);
      assert Others(es[1..]) == Others(es)[1..];
    }
  }

  // ------------------------------------------------------------- what is written

  /** Writing changes the one file. */
  lemma {:induction false} WriteLaw(suite: seq<Node>, path: string, doc: Doc, p: string)
    ensures DocAt(Write(suite, path, doc), p) == if p == path then Some(doc) else DocAt(suite, p)
  {
    if suite != [] && suite[0].path != path && !Less(path, suite[0].path) {
      WriteLaw(suite[1..], path, doc, p);
    }
  }

  lemma {:induction false} HasLaw(suite: seq<Node>, path: string)
    ensures Has(suite, path) <==> DocAt(suite, path).Some?
  {
    if suite != [] {
      HasLaw(suite[1..], path);
      if Has(suite, path) && suite[0].path != path {
        var i :| 0 <= i < |suite| && suite[i].path == path;
        assert suite[1..][i - 1].path == path;
      }
      if Has(suite[1..], path) {
        var i :| 0 <= i < |suite[1..]| && suite[1..][i].path == path;
        assert suite[i + 1].path == path;
      }
    }
  }

  /** An index is refused exactly if it would go over a file that is there and not of its name; otherwise
      nothing but its own file changes. */
  lemma BuildLaw(w: World, suite: seq<Node>, output: Option<string>, p: string)
    ensures Build(w, suite, output).None? <==>
      output.Some? && output.value != "evidence-index.json" && DocAt(suite, output.value).Some?
    ensures Build(w, suite, output).Some? ==>
      DocAt(Build(w, suite, output).value, p)
      == if output == Some(p) then Some(IndexDoc(IndexOf(w, suite, output))) else DocAt(suite, p)
  {
    if output.Some? {
      HasLaw(suite, output.value);
      WriteLaw(suite, output.value, IndexDoc(IndexOf(w, suite, output)), p);
    }
  }

  /** The cycle changes the index's file and the summary's and no other. The summary says whether the first
      index passed, and its checksum. */
  lemma CycleLaw(w: World, suite: seq<Node>, output: Option<string>, path: Option<string>, further: seq<Reason>, p: string)
    requires BuildSummary(w, suite, output, path, further).Some?
    ensures var pre, once := IndexOf(w, suite, output), Build(w, suite, output).value;
      var after := BuildSummary(w, suite, output, path, further).value;
      && (output != Some(p) && path != Some(p) ==> DocAt(after, p) == DocAt(suite, p))
      && (output != Some(p) && path == Some(p) ==>
            && DocAt(after, p).Some? && DocAt(after, p).value.SummaryDoc?
            && DocAt(after, p).value.summary.validated == Some(OfPayload(pre.payload))
            && (DocAt(after, p).value.summary.passed <==> Passes(w, once, pre, further)))
      && (output == Some(p) ==>
            DocAt(after, p) == Some(IndexDoc(IndexOf(w, Summarized(w, suite, output, path, further), output))))
  {
    var pre, once := IndexOf(w, suite, output), Build(w, suite, output).value;
    BuildLaw(w, suite, output, p);
    if path.Some? { WriteLaw(once, path.value, SummaryDoc(Summary(Passes(w, once, pre, further), pre.checksum)), p); }
    BuildLaw(w, Summarized(w, suite, output, path, further), output, p);
  }

  // -------------------------------------------------------------------- reasons

  /** The reason is one against the entry. */
  predicate Against(w: World, suite: seq<Node>, e: Entry, r: Reason) {
    var at := w.resolve(e.path);
    match r
    case MalformedDigest(p) => p == e.path && e.sha.Malformed?
    case Escapes(p) => p == e.path && at.None?
    case MissingFile(p) => p == e.path && at.Some? && DocAt(suite, at.value).None?
    case DigestMismatch(p) =>
      p == e.path && at.Some? && DocAt(suite, at.value).Some? && e.sha != Hex(OfDoc(DocAt(suite, at.value).value))
    case SizeMismatch(p) =>
      p == e.path && at.Some? && DocAt(suite, at.value).Some? && e.size != w.sizeOf(DocAt(suite, at.value).value)
    case _ => false
  }

  lemma AgainstOne(w: World, suite: seq<Node>, e: Entry, r: Reason)
    ensures r in EntryReasons(w, suite, e) <==> Against(w, suite, e, r)
  {
  }

  lemma {:induction false} AgainstSome(w: World, suite: seq<Node>, es: seq<Entry>, r: Reason)
    ensures r in AllEntryReasons(w, suite, es) <==> exists k :: 0 <= k < |es| && Against(w, suite, es[k], r)
  {
    if es != [] {
      AgainstOne(w, suite, es[0], r);
      AgainstSome(w, suite, es[1..], r);
      if exists k :: 0 <= k < |es| && Against(w, suite, es[k], r) {
        var k :| 0 <= k < |es| && Against(w, suite, es[k], r);
        if k > 0 { assert es[1..][k - 1] == es[k]; }
      }
      if exists k :: 0 <= k < |es[1..]| && Against(w, suite, es[1..][k], r) {
        var k :| 0 <= k < |es[1..]| && Against(w, suite, es[1..][k], r);
        assert es[k + 1] == es[1..][k];
      }
    }
  }

  /** The node is evidence that has no entry. */
  predicate Missed(n: Node, es: seq<Entry>, r: Reason) {
    r == Unindexed(n.path) && !IsTemp(n.path) && n.path != "evidence-index.json" && !Lists(es, n.path)
  }

  lemma {:induction false} MissedSome(suite: seq<Node>, es: seq<Entry>, r: Reason)
    ensures r in UnindexedReasons(suite, es) <==> exists i :: 0 <= i < |suite| && Missed(suite[i], es, r)
  {
    if suite != [] {
      MissedSome(suite[1..], es, r);
      if exists i :: 0 <= i < |suite| && Missed(suite[i], es, r) {
        var i :| 0 <= i < |suite| && Missed(suite[i], es, r);
        if i > 0 { assert suite[1..][i - 1] == suite[i]; }
      }
      if exists i :: 0 <= i < |suite[1..]| && Missed(suite[1..][i], es, r) {
        var i :| 0 <= i < |suite[1..]| && Missed(suite[1..][i], es, r);
        assert suite[i + 1] == suite[1..][i];
      }
    }
  }

  /** The entry is of no evidence. */
  predicate Outdated(suite: seq<Node>, e: Entry, r: Reason) {
    r == StaleEntry(e.path) && (DocAt(suite, e.path).None? || IsTemp(e.path) || e.path == "evidence-index.json")
  }

  lemma PreservedLaw(suite: seq<Node>, path: string)
    ensures IsPreserved(suite, path) <==> DocAt(suite, path).Some? && !IsTemp(path) && path != "evidence-index.json"
  {
    HasLaw(suite, path);
    if Has(suite, path) && !IsTemp(path) && path != INDEX_NAME {
      var i :| 0 <= i < |suite| && suite[i].path == path;
      assert Preserved(suite[i]);
    }
  }

  lemma {:induction false} OutdatedSome(suite: seq<Node>, es: seq<Entry>, r: Reason)
    ensures r in StaleReasons(suite, es) <==> exists k :: 0 <= k < |es| && Outdated(suite, es[k], r)
  {
    if es != [] {
      PreservedLaw(suite, es[0].path);
      OutdatedSome(suite, es[1..], r);
      if exists k :: 0 <= k < |es| && Outdated(suite, es[k], r) {
        var k :| 0 <= k < |es| && Outdated(suite, es[k], r);
        if k > 0 { assert es[1..][k - 1] == es[k]; }
      }
      if exists k :: 0 <= k < |es[1..]| && Outdated(suite, es[1..][k], r) {
        var k :| 0 <= k < |es[1..]| && Outdated(suite, es[1..][k], r);
        assert es[k + 1] == es[1..][k];
      }
    }
  }

  /** Each reason is given exactly if it holds: of the checksum, of some entry, or of some file. */
  lemma IntegritySays(w: World, suite: seq<Node>, index: Index, r: Reason)
    ensures var es := index.payload.files;
      r in IntegrityReasons(w, suite, index) <==>
      || (r == WrongChecksum && index.checksum != Some(OfPayload(index.payload)))
      || (exists k :: 0 <= k < |es| && Against(w, suite, es[k], r))
      || (exists i :: 0 <= i < |suite| && Missed(suite[i], es, r))
      || (exists k :: 0 <= k < |es| && Outdated(suite, es[k], r))
  {
    AgainstSome(w, suite, index.payload.files, r);
    MissedSome(suite, index.payload.files, r);
    OutdatedSome(suite, index.payload.files, r);
  }

  /** The summary that is read is the last one listed. */
  lemma {:induction false} SummaryIsLast(es: seq<Entry>) returns (k: nat)
    requires HasSummary(es)
    ensures k < |es| && es[k].path == SummaryPath(es) && IsSummary(es[k].path)
    ensures forall l :: k < l < |es| ==> !IsSummary(es[l].path)
  {
    var n := |es| - 1;
    k := n;
    if !IsSummary(es[n].path) {
      var i :| 0 <= i < |es| && IsSummary(es[i].path);
      assert es[..n][i] == es[i];
      k := SummaryIsLast(es[..n]);
    }
  }

  /** A listed summary is one, was made for this index without its summaries, and passed. */
  predicate SummaryStands(suite: seq<Node>, index: Index) {
    var es := index.payload.files;
    forall k :: 0 <= k < |es| && IsSummary(es[k].path) && (forall l :: k < l < |es| ==> !IsSummary(es[l].path)) ==>
      match DocAt(suite, es[k].path)
      case Some(SummaryDoc(s)) => s.passed && s.validated == Some(OfPayload(index.payload.(files := WithoutSummary(es))))
      case _ => false
  }

  lemma SummaryLaw(suite: seq<Node>, index: Index)
    ensures SummaryReasons(suite, index) == [] <==> SummaryStands(suite, index)
  {
    var es := index.payload.files;
    if HasSummary(es) {
      var k := SummaryIsLast(es);
      if SummaryReasons(suite, index) == [] {
        forall j | 0 <= j < |es| && IsSummary(es[j].path) && (forall l :: j < l < |es| ==> !IsSummary(es[l].path)) ensures j == k {
          assert k <= j;
        }
      }
    }
  }

  /** The gate passes exactly without diagnostics, with an exact index under its own checksum that does not
      list itself and lists nothing twice, a summary that stands if there is one, and nothing further. */
  lemma PassesExactly(w: World, suite: seq<Node>, index: Index, further: seq<Reason>)
    requires Distinct(suite) && Resolves(w, suite)
    ensures Passes(w, suite, index, further) <==>
      && index.payload.diagnostics == [] && further == [] && SummaryStands(suite, index)
      && index.checksum == Some(OfPayload(index.payload)) && Exact(w, suite, index.payload.files)
      && DistinctPaths(index.payload.files) && !Lists(index.payload.files, "evidence-index.json")
  {
    IntegrityIsExact(w, suite, index);
    SummaryLaw(suite, index);
    var a := if Lists(index.payload.files, INDEX_NAME) then [SelfIncluded] else [];
    var b := if index.payload.diagnostics != [] then [HasDiagnostics(|index.payload.diagnostics|)] else [];
    NoneOf(a, b, IntegrityReasons(w, suite, index), SummaryReasons(suite, index), further);
  }

  lemma NoneOf(a: seq<Reason>, b: seq<Reason>, c: seq<Reason>, d: seq<Reason>, e: seq<Reason>)
    ensures a + b + c + d + e == [] <==> a == [] && b == [] && c == [] && d == [] && e == []
  {
    assert |a + b + c + d + e| == |a| + |b| + |c| + |d| + |e|;
  }
}
