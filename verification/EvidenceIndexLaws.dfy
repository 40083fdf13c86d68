/** Round trips of the evidence index: a fresh one passes its integrity check, the check is exact, and the
    summary cycle closes. */
module EvidenceIndexLaws {
  import opened Geometry
  import opened EvidenceIndex
  import Capture
  import CaptureLaws

  predicate Distinct(suite: seq<Node>) { forall i, j :: 0 <= i < j < |suite| ==> suite[i].path != suite[j].path }

  // ------------------------------------------------------------- the path order

  lemma {:induction false} LessTransitive(a: string, b: string, c: string)
    requires Less(a, b) && Less(b, c)
    ensures Less(a, c)
  {
    if a != [] && a[0] == b[0] && b[0] == c[0] { LessTransitive(a[1..], b[1..], c[1..]); }
  }

  lemma {:induction false} LessIrreflexive(a: string)
    ensures !Less(a, a)
  {
    if a != [] { LessIrreflexive(a[1..]); }
  }

  lemma {:induction false} LessTotal(a: string, b: string)
    ensures a == b || Less(a, b) || Less(b, a)
  {
    if a != [] && b != [] && a[0] == b[0] {
      LessTotal(a[1..], b[1..]);
      if a[1..] == b[1..] { assert a == [a[0]] + a[1..] && b == [b[0]] + b[1..]; }
    }
  }

  /** A suite lists its files in path order. */
  predicate Sorted(suite: seq<Node>) { forall i, j :: 0 <= i < j < |suite| ==> Less(suite[i].path, suite[j].path) }

  lemma SortedIsDistinct(suite: seq<Node>)
    requires Sorted(suite)
    ensures Distinct(suite)
  {
    forall i, j | 0 <= i < j < |suite| ensures suite[i].path != suite[j].path { LessIrreflexive(suite[i].path); }
  }

  lemma {:induction false} WriteSorted(suite: seq<Node>, path: string, doc: Doc)
    requires Sorted(suite)
    ensures Sorted(Write(suite, path, doc))
    ensures suite != [] ==> Write(suite, path, doc)[0].path == path || Write(suite, path, doc)[0] == suite[0]
  {
    if suite != [] && suite[0].path != path {
      LessTotal(path, suite[0].path);
      if Less(path, suite[0].path) {
        forall j | 0 < j < |suite| ensures Less(path, suite[j].path) { LessTransitive(path, suite[0].path, suite[j].path); }
      } else {
        var rest := Write(suite[1..], path, doc);
        WriteSorted(suite[1..], path, doc);
        forall j | 0 <= j < |rest| ensures Less(suite[0].path, rest[j].path) {
          var i := WriteFrom(suite[1..], path, doc, j);
          if rest[j] != Node(path, doc) { assert rest[j] == suite[i + 1]; }
        }
      }
    }
  }

  // --------------------------------------------------------------- integrity

  /** The document of a file that is listed once. */
  lemma {:induction false} DocAtIs(suite: seq<Node>, i: nat)
    requires Distinct(suite) && i < |suite|
    ensures DocAt(suite, suite[i].path) == Some(suite[i].doc)
  {
    if i > 0 { DocAtIs(suite[1..], i - 1); }
  }

  lemma {:induction false} DocAtHas(suite: seq<Node>, path: string) returns (i: nat)
    requires DocAt(suite, path).Some?
    ensures i < |suite| && suite[i].path == path && suite[i].doc == DocAt(suite, path).value
  {
    if suite[0].path == path {
      i := 0;
    } else {
      i := DocAtHas(suite[1..], path);
      i := i + 1;
    }
  }

  /** An entry describes the current file at its path. */
  predicate Describes(w: World, suite: seq<Node>, e: Entry) {
    exists i :: 0 <= i < |suite| && suite[i].path == e.path && Preserved(suite[i]) && e.sha == Hex(OfDoc(suite[i].doc))
      && e.size == w.sizeOf(suite[i].doc)
  }

  /** The index is exactly the current map from preserved paths to digests and sizes. */
  predicate Exact(w: World, suite: seq<Node>, es: seq<Entry>) {
    && (forall k :: 0 <= k < |es| ==> Describes(w, suite, es[k]))
    && (forall i :: 0 <= i < |suite| && Preserved(suite[i]) ==> Lists(es, suite[i].path))
  }

  /** Paths of suite files resolve to themselves. */
  predicate Resolves(w: World, suite: seq<Node>) { forall i :: 0 <= i < |suite| ==> w.resolve(suite[i].path) == Some(suite[i].path) }

  lemma {:induction false} AllEntryReasonsLaw(w: World, suite: seq<Node>, es: seq<Entry>)
    ensures AllEntryReasons(w, suite, es) == [] <==> forall k :: 0 <= k < |es| ==> EntryReasons(w, suite, es[k]) == []
  {
    if es != [] {
      AllEntryReasonsLaw(w, suite, es[1..]);
      assert forall k :: 0 < k < |es| ==> es[k] == es[1..][k - 1];
      if AllEntryReasons(w, suite, es) == [] {
        forall k | 0 <= k < |es| ensures EntryReasons(w, suite, es[k]) == [] {
          if k > 0 { assert EntryReasons(w, suite, es[1..][k - 1]) == []; }
        }
      }
    }
  }

  lemma {:induction false} UnindexedLaw(suite: seq<Node>, es: seq<Entry>)
    ensures UnindexedReasons(suite, es) == [] <==> forall i :: 0 <= i < |suite| && Preserved(suite[i]) ==> Lists(es, suite[i].path)
  {
    if suite != [] {
      UnindexedLaw(suite[1..], es);
      if UnindexedReasons(suite, es) == [] {
        forall i | 0 <= i < |suite| && Preserved(suite[i]) ensures Lists(es, suite[i].path) {
          if i > 0 { assert suite[i] == suite[1..][i - 1]; }
        }
      } else if UnindexedReasons(suite[1..], es) != [] {
        var i :| 0 <= i < |suite[1..]| && Preserved(suite[1..][i]) && !Lists(es, suite[1..][i].path);
        assert suite[i + 1] == suite[1..][i];
      }
    }
  }

  lemma {:induction false} StaleLaw(suite: seq<Node>, es: seq<Entry>)
    ensures StaleReasons(suite, es) == [] <==> forall k :: 0 <= k < |es| ==> IsPreserved(suite, es[k].path)
  {
    if es != [] {
      StaleLaw(suite, es[1..]);
      if StaleReasons(suite, es) == [] {
        forall k | 0 <= k < |es| ensures IsPreserved(suite, es[k].path) {
          if k > 0 { assert es[k] == es[1..][k - 1]; }
        }
      } else if StaleReasons(suite, es[1..]) != [] {
        var k :| 0 <= k < |es[1..]| && !IsPreserved(suite, es[1..][k].path);
        assert es[k + 1] == es[1..][k];
      }
    }
  }

  lemma EntryExact(w: World, suite: seq<Node>, e: Entry)
    requires Distinct(suite) && Resolves(w, suite)
    ensures EntryReasons(w, suite, e) == [] && IsPreserved(suite, e.path) <==> Describes(w, suite, e)
  {
    if IsPreserved(suite, e.path) {
      var i :| 0 <= i < |suite| && suite[i].path == e.path && Preserved(suite[i]);
      DocAtIs(suite, i);
      if Describes(w, suite, e) {
        var j :| 0 <= j < |suite| && suite[j].path == e.path && Preserved(suite[j]) && e.sha == Hex(OfDoc(suite[j].doc))
          && e.size == w.sizeOf(suite[j].doc);
        assert i == j;
      }
    }
  }

  /** The integrity check is exact: no reason if and only if the recorded checksum is that of the index
      and the index is precisely the current path, digest and size map. */
  lemma IntegrityIsExact(w: World, suite: seq<Node>, index: Index)
    requires Distinct(suite) && Resolves(w, suite)
    ensures IntegrityReasons(w, suite, index) == [] <==>
      index.checksum == Some(OfPayload(index.payload)) && Exact(w, suite, index.payload.files)
  {
    var es := index.payload.files;
    AllEntryReasonsLaw(w, suite, es);
    UnindexedLaw(suite, es);
    StaleLaw(suite, es);
    forall k | 0 <= k < |es|
      ensures EntryReasons(w, suite, es[k]) == [] && IsPreserved(suite, es[k].path) <==> Describes(w, suite, es[k])
    {
      EntryExact(w, suite, es[k]);
    }
    var a, b, c, d := if index.checksum != Some(OfPayload(index.payload)) then [WrongChecksum] else [],
                      AllEntryReasons(w, suite, es), UnindexedReasons(suite, es), StaleReasons(suite, es);
    assert IntegrityReasons(w, suite, index) == a + b + c + d;
    assert |a + b + c + d| == |a| + |b| + |c| + |d|;
  }

  // ------------------------------------------------------------- fresh indexes

  lemma {:induction false} EntriesHave(w: World, an: Analysis, suite: seq<Node>, output: Option<string>, k: nat) returns (i: nat)
    requires k < |Entries(w, an, suite, output)|
    ensures i < |suite| && IsIndexed(suite[i], output) && Entries(w, an, suite, output)[k] == EntryOf(w, an, suite[i])
  {
    if IsIndexed(suite[0], output) && k == 0 {
      i := 0;
    } else {
      i := EntriesHave(w, an, suite[1..], output, if IsIndexed(suite[0], output) then k - 1 else k);
      i := i + 1;
    }
  }

  lemma {:induction false} EntriesList(w: World, an: Analysis, suite: seq<Node>, output: Option<string>, i: nat) returns (k: nat)
    requires i < |suite| && IsIndexed(suite[i], output)
    ensures k < |Entries(w, an, suite, output)| && Entries(w, an, suite, output)[k] == EntryOf(w, an, suite[i])
  {
    if i == 0 {
      k := 0;
    } else {
      k := EntriesList(w, an, suite[1..], output, i - 1);
      if IsIndexed(suite[0], output) { k := k + 1; }
    }
  }

  lemma {:induction false} EntriesDistinct(w: World, an: Analysis, suite: seq<Node>, output: Option<string>)
    requires Distinct(suite)
    ensures DistinctPaths(Entries(w, an, suite, output))
  {
    if suite != [] {
      var rest := Entries(w, an, suite[1..], output);
      EntriesDistinct(w, an, suite[1..], output);
      forall k | 0 <= k < |rest| ensures rest[k].path != suite[0].path {
        var i := EntriesHave(w, an, suite[1..], output, k);
        assert suite[i + 1] == suite[1..][i];
      }
    }
  }

  lemma {:induction false} WriteHas(suite: seq<Node>, path: string, doc: Doc, i: nat) returns (j: nat)
    requires i < |suite| && suite[i].path != path
    ensures j < |Write(suite, path, doc)| && Write(suite, path, doc)[j] == suite[i]
  {
    if suite[0].path == path {
      j := i;
    } else if Less(path, suite[0].path) {
      j := i + 1;
    } else if i == 0 {
      j := 0;
    } else {
      j := WriteHas(suite[1..], path, doc, i - 1);
      j := j + 1;
    }
  }

  lemma {:induction false} WriteFrom(suite: seq<Node>, path: string, doc: Doc, j: nat) returns (i: nat)
    requires j < |Write(suite, path, doc)|
    ensures Write(suite, path, doc)[j] == Node(path, doc) || (i < |suite| && Write(suite, path, doc)[j] == suite[i])
  {
    i := 0;
    if suite != [] {
      if suite[0].path == path {
        i := j;
      } else if Less(path, suite[0].path) {
        i := if j > 0 then j - 1 else 0;
      } else if j > 0 {
        i := WriteFrom(suite[1..], path, doc, j - 1);
        i := i + 1;
      }
    }
  }

  lemma {:induction false} WriteWrites(suite: seq<Node>, path: string, doc: Doc)
    ensures exists j :: 0 <= j < |Write(suite, path, doc)| && Write(suite, path, doc)[j] == Node(path, doc)
  {
    if suite == [] || suite[0].path == path || Less(path, suite[0].path) {
      assert Write(suite, path, doc)[0] == Node(path, doc);
    } else {
      WriteWrites(suite[1..], path, doc);
      var j :| 0 <= j < |Write(suite[1..], path, doc)| && Write(suite[1..], path, doc)[j] == Node(path, doc);
      assert Write(suite, path, doc)[j + 1] == Node(path, doc);
    }
  }

  /** Where an index can be written so that it describes the suite afterwards: at its own name, or - if the
      suite has no file of that name - outside the suite or under a temporary name. */
  predicate GoodPlace(suite: seq<Node>, output: Option<string>) {
    output == Some(INDEX_NAME) || ((output.None? || IsTemp(output.value)) && !Has(suite, INDEX_NAME))
  }

  lemma FreshIsExact(w: World, an: Analysis, suite: seq<Node>, output: Option<string>, doc: Doc)
    requires Distinct(suite) && GoodPlace(suite, output) && !OutputAsInput(suite, output)
    ensures Exact(w, Put(suite, output, doc), Entries(w, an, suite, output))
  {
    var after, es := Put(suite, output, doc), Entries(w, an, suite, output);
    forall k | 0 <= k < |es| ensures Describes(w, after, es[k]) {
      var i := EntriesHave(w, an, suite, output, k);
      var j: nat := i;
      if output.Some? { j := WriteHas(suite, output.value, doc, i); }
      assert after[j] == suite[i] && Preserved(after[j]);
    }
    forall j | 0 <= j < |after| && Preserved(after[j]) ensures Lists(es, after[j].path) {
      var i: nat := j;
      if output.Some? { i := WriteFrom(suite, output.value, doc, j); }
      assert after[j] == suite[i];
      var k := EntriesList(w, an, suite, output, i);
      assert es[k].path == after[j].path;
    }
  }

  /** A fresh index that is written at all passes its own integrity check if and only if it is written where
      it belongs. */
  lemma FreshIndexPasses(w: World, suite: seq<Node>, output: Option<string>)
    requires Sorted(suite) && Build(w, suite, output).Some? && Resolves(w, Build(w, suite, output).value)
    ensures IntegrityReasons(w, Build(w, suite, output).value, IndexOf(w, suite, output)) == [] <==> GoodPlace(suite, output)
  {
    var index := IndexOf(w, suite, output);
    PutSorted(suite, output, IndexDoc(index));
    SortedIsDistinct(suite);
    if GoodPlace(suite, output) {
      FreshHasNoReasons(w, suite, output);
    } else if output.Some? && !IsTemp(output.value) {
      MisplacedIndexFails(w, suite, output.value, index);
    } else {
      OldIndexFails(w, suite, output, index);
    }
  }

  lemma PutSorted(suite: seq<Node>, output: Option<string>, doc: Doc)
    requires Sorted(suite)
    ensures Sorted(Put(suite, output, doc)) && Distinct(Put(suite, output, doc))
  {
    if output.Some? { WriteSorted(suite, output.value, doc); }
    SortedIsDistinct(Put(suite, output, doc));
  }

  lemma FreshHasNoReasons(w: World, suite: seq<Node>, output: Option<string>)
    requires Distinct(suite) && GoodPlace(suite, output)
    requires Build(w, suite, output).Some? && Distinct(Build(w, suite, output).value) && Resolves(w, Build(w, suite, output).value)
    ensures IntegrityReasons(w, Build(w, suite, output).value, IndexOf(w, suite, output)) == []
  {
    var index := IndexOf(w, suite, output);
    FreshIsExact(w, w.analyse(Evidence(suite, output)), suite, output, IndexDoc(index));
    IntegrityIsExact(w, Build(w, suite, output).value, index);
  }

  lemma TempOfIndexName()
    ensures !IsTemp(INDEX_NAME) && BaseName(INDEX_NAME) == INDEX_NAME && !IsSummary(INDEX_NAME)
  {
    var name := INDEX_NAME;
    NoSlashes(name);
    assert forall i :: 0 <= i < |TEMP_PREFIXES| ==> TEMP_PREFIXES[i][0] == '.' && name[0] == 'e';
  }

  lemma {:induction false} NoSlashes(s: string)
    requires forall i :: 0 <= i < |s| ==> s[i] != '/'
    ensures BaseName(s) == s
  {
    if s != [] { NoSlashes(s[..|s| - 1]); }
  }

  /** Written anywhere else in the suite, it misses itself: the file is preserved evidence, but not indexed. */
  lemma MisplacedIndexFails(w: World, suite: seq<Node>, output: string, index: Index)
    requires output != INDEX_NAME && !IsTemp(output) && index == IndexOf(w, suite, Some(output))
    ensures IntegrityReasons(w, Write(suite, output, IndexDoc(index)), index) != []
  {
    var after, an := Write(suite, output, IndexDoc(index)), w.analyse(Evidence(suite, Some(output)));
    var es := index.payload.files;
    WriteWrites(suite, output, IndexDoc(index));
    var j :| 0 <= j < |after| && after[j] == Node(output, IndexDoc(index));
    if Lists(es, output) {
      var k :| 0 <= k < |es| && es[k].path == output;
      var i := EntriesHave(w, an, suite, Some(output), k);
    }
    UnindexedLaw(after, es);
    assert Preserved(after[j]) && !Lists(es, after[j].path);
  }

  /** Written elsewhere while the suite has a file of the index's name, it lists that file, which is not
      preserved evidence. */
  lemma OldIndexFails(w: World, suite: seq<Node>, output: Option<string>, index: Index)
    requires output != Some(INDEX_NAME) && Has(suite, INDEX_NAME) && index == IndexOf(w, suite, output)
    ensures IntegrityReasons(w, Put(suite, output, IndexDoc(index)), index) != []
  {
    var after, es := Put(suite, output, IndexDoc(index)), index.payload.files;
    TempOfIndexName();
    var i :| 0 <= i < |suite| && suite[i].path == INDEX_NAME;
    var k := EntriesList(w, w.analyse(Evidence(suite, output)), suite, output, i);
    StaleLaw(after, es);
    assert !IsPreserved(after, es[k].path);
  }

  // ------------------------------------------------------------ the summary cycle

  lemma {:induction false} WithoutNothing(es: seq<Entry>)
    ensures !HasSummary(es) ==> WithoutSummary(es) == es
    ensures HasSummary(es) ==> |WithoutSummary(es)| < |es|
    ensures |WithoutSummary(es)| <= |es|
  {
    if es != [] {
      WithoutNothing(es[1..]);
      if HasSummary(es) && !IsSummary(es[0].path) {
        var i :| 0 <= i < |es| && IsSummary(es[i].path);
        assert es[1..][i - 1] == es[i];
      }
      if !HasSummary(es) {
        assert forall i :: 0 <= i < |es[1..]| ==> es[1..][i] == es[i + 1];
      }
    }
  }

  /** Writing the index changes no entry. */
  lemma {:induction false} EntriesAfterIndex(w: World, an: Analysis, suite: seq<Node>, output: string, doc: Doc)
    ensures Entries(w, an, Write(suite, output, doc), Some(output)) == Entries(w, an, suite, Some(output))
  {
    if suite != [] {
      if suite[0].path == output {
        assert ([Node(output, doc)] + suite[1..])[1..] == suite[1..];
      } else if Less(output, suite[0].path) {
        assert ([Node(output, doc)] + suite)[1..] == suite;
      } else {
        var rest := Write(suite[1..], output, doc);
        assert ([suite[0]] + rest)[1..] == rest;
        EntriesAfterIndex(w, an, suite[1..], output, doc);
      }
    }
  }

  /** Writing a summary changes only summary entries. */
  lemma {:induction false} EntriesAfterSummary(w: World, an: Analysis, suite: seq<Node>, output: Option<string>, path: string, doc: Doc)
    requires IsSummary(path)
    ensures WithoutSummary(Entries(w, an, Write(suite, path, doc), output)) == WithoutSummary(Entries(w, an, suite, output))
  {
    if suite == [] {
      assert [Node(path, doc)][1..] == [];
    } else {
      var n := suite[0];
      if n.path == path {
        assert ([Node(path, doc)] + suite[1..])[1..] == suite[1..];
        WithoutFirst(w, an, suite, output);
        WithoutFirst(w, an, [Node(path, doc)] + suite[1..], output);
      } else if Less(path, n.path) {
        assert ([Node(path, doc)] + suite)[1..] == suite;
        WithoutFirst(w, an, [Node(path, doc)] + suite, output);
      } else {
        var rest := Write(suite[1..], path, doc);
        assert ([n] + rest)[1..] == rest;
        EntriesAfterSummary(w, an, suite[1..], output, path, doc);
        WithoutFirst(w, an, suite, output);
        WithoutFirst(w, an, [n] + rest, output);
      }
    }
  }

  lemma WithoutFirst(w: World, an: Analysis, suite: seq<Node>, output: Option<string>)
    requires suite != []
    ensures WithoutSummary(Entries(w, an, suite, output)) ==
      (if IsIndexed(suite[0], output) && !IsSummary(suite[0].path)
       then [EntryOf(w, an, suite[0])] + WithoutSummary(Entries(w, an, suite[1..], output))
       else WithoutSummary(Entries(w, an, suite[1..], output)))
  {
    var rest := Entries(w, an, suite[1..], output);
    if IsIndexed(suite[0], output) {
      assert ([EntryOf(w, an, suite[0])] + rest)[1..] == rest;
    }
  }

  lemma {:induction false} EvidenceAfterIndex(suite: seq<Node>, output: string, doc: Doc)
    ensures Evidence(Write(suite, output, doc), Some(output)) == Evidence(suite, Some(output))
  {
    if suite != [] {
      if suite[0].path == output {
        assert ([Node(output, doc)] + suite[1..])[1..] == suite[1..];
      } else if Less(output, suite[0].path) {
        assert ([Node(output, doc)] + suite)[1..] == suite;
      } else {
        var rest := Write(suite[1..], output, doc);
        assert ([suite[0]] + rest)[1..] == rest;
        EvidenceAfterIndex(suite[1..], output, doc);
      }
    }
  }

  /** At the summary's path there is no file yet, or one that reads as a summary. */
  predicate Replaces(suite: seq<Node>, path: string) {
    forall i :: 0 <= i < |suite| && suite[i].path == path ==> suite[i].doc.SummaryDoc?
  }

  lemma {:induction false} EvidenceAfterSummary(suite: seq<Node>, output: Option<string>, path: string, s: Summary)
    requires IsSummary(path) && Replaces(suite, path)
    ensures Evidence(Write(suite, path, SummaryDoc(s)), output) == Evidence(suite, output)
  {
    if suite != [] {
      if suite[0].path == path {
        assert ([Node(path, SummaryDoc(s))] + suite[1..])[1..] == suite[1..];
      } else if Less(path, suite[0].path) {
        assert ([Node(path, SummaryDoc(s))] + suite)[1..] == suite;
      } else {
        var rest := Write(suite[1..], path, SummaryDoc(s));
        assert ([suite[0]] + rest)[1..] == rest;
        EvidenceAfterSummary(suite[1..], output, path, s);
      }
    }
  }

  lemma SummaryIsIndexed(path: string)
    requires IsSummary(path)
    ensures !IsTemp(path) && path != INDEX_NAME
  {
    TempOfIndexName();
    assert forall i :: 0 <= i < |TEMP_PREFIXES| ==> TEMP_PREFIXES[i][0] == '.' && BaseName(path)[0] == 'q';
  }

  /** Outside the suite, or at the index's own name. */
  predicate AtItsName(output: Option<string>) { output.None? || output.value == INDEX_NAME }

  /** What the final index of the cycle keeps of the first one. */
  lemma FinalIndex(w: World, suite: seq<Node>, output: Option<string>, path: string, further: seq<Reason>)
    requires AtItsName(output) && IsSummary(path) && Replaces(suite, path)
    ensures var pre, last := PayloadOf(w, suite, output), PayloadOf(w, Summarized(w, suite, output, Some(path), further), output);
      HasSummary(last.files) && last.(files := WithoutSummary(last.files)) == pre.(files := WithoutSummary(pre.files))
  {
    var index := IndexOf(w, suite, output);
    var once, s := Put(suite, output, IndexDoc(index)), Summary(Passes(w, Put(suite, output, IndexDoc(index)), index, further), index.checksum);
    var an := w.analyse(Evidence(suite, output));
    SummaryIsIndexed(path);
    if output.Some? {
      EvidenceAfterIndex(suite, INDEX_NAME, IndexDoc(index));
      EntriesAfterIndex(w, an, suite, INDEX_NAME, IndexDoc(index));
      StillReplaces(suite, path, IndexDoc(index));
    }
    EvidenceAfterSummary(once, output, path, s);
    EntriesAfterSummary(w, an, once, output, path, SummaryDoc(s));
    WriteWrites(once, path, SummaryDoc(s));
    var last := Write(once, path, SummaryDoc(s));
    var i :| 0 <= i < |last| && last[i] == Node(path, SummaryDoc(s));
    var k := EntriesList(w, an, last, output, i);
    assert IsSummary(Entries(w, an, last, output)[k].path);
  }

  lemma StillReplaces(suite: seq<Node>, path: string, doc: Doc)
    requires IsSummary(path) && Replaces(suite, path)
    ensures Replaces(Write(suite, INDEX_NAME, doc), path)
  {
    TempOfIndexName();
    var after := Write(suite, INDEX_NAME, doc);
    forall j | 0 <= j < |after| && after[j].path == path ensures after[j].doc.SummaryDoc? {
      var i := WriteFrom(suite, INDEX_NAME, doc, j);
      assert after[j] == suite[i];
    }
  }

  /** The new summary has an entry in the final index. */
  lemma SummaryIsListed(w: World, suite: seq<Node>, output: Option<string>, path: string, further: seq<Reason>)
    requires AtItsName(output) && IsSummary(path)
    ensures HasSummary(PayloadOf(w, Summarized(w, suite, output, Some(path), further), output).files)
  {
    var index := IndexOf(w, suite, output);
    var once := Put(suite, output, IndexDoc(index));
    var s := SummaryDoc(Summary(Passes(w, once, index, further), index.checksum));
    var last := Write(once, path, s);
    SummaryIsIndexed(path);
    WriteWrites(once, path, s);
    var i :| 0 <= i < |last| && last[i] == Node(path, s);
    var an := w.analyse(Evidence(last, output));
    var k := EntriesList(w, an, last, output, i);
    assert IsSummary(Entries(w, an, last, output)[k].path);
  }

  lemma {:induction false} NoSummaryLeft(es: seq<Entry>)
    ensures !HasSummary(WithoutSummary(es))
  {
    if es != [] { NoSummaryLeft(es[1..]); }
  }

  /** A file at the summary's path that is there already is an earlier summary entry. */
  lemma EarlierFile(w: World, suite: seq<Node>, output: Option<string>, path: string)
    requires AtItsName(output) && IsSummary(path) && !Replaces(suite, path)
    ensures HasSummary(PayloadOf(w, suite, output).files)
  {
    SummaryIsIndexed(path);
    var i :| 0 <= i < |suite| && suite[i].path == path && !suite[i].doc.SummaryDoc?;
    var an := w.analyse(Evidence(suite, output));
    var k := EntriesList(w, an, suite, output, i);
    assert IsSummary(Entries(w, an, suite, output)[k].path);
  }

  /** A path where a summary is recognised: in the suite, under the name of a summary. */
  predicate ReadAsSummary(path: Option<string>) { path.Some? && IsSummary(path.value) }

  /** A summary written anywhere else adds no summary entry to the final index. */
  lemma NoNewSummary(w: World, suite: seq<Node>, output: Option<string>, path: Option<string>, further: seq<Reason>)
    requires AtItsName(output) && !ReadAsSummary(path)
    ensures HasSummary(PayloadOf(w, Summarized(w, suite, output, path, further), output).files) ==>
      HasSummary(PayloadOf(w, suite, output).files)
  {
    var last := Summarized(w, suite, output, path, further);
    var files := PayloadOf(w, last, output).files;
    if HasSummary(files) {
      var k :| 0 <= k < |files| && IsSummary(files[k].path);
      var i := EntriesHave(w, w.analyse(Evidence(last, output)), last, output, k);
      var m := FromBefore(w, suite, output, path, further, i);
      var l := EntriesList(w, w.analyse(Evidence(suite, output)), suite, output, m);
      assert IsSummary(PayloadOf(w, suite, output).files[l].path);
    }
  }

  /** A file with the name of a summary was there before. */
  lemma FromBefore(w: World, suite: seq<Node>, output: Option<string>, path: Option<string>, further: seq<Reason>, i: nat)
    returns (m: nat)
    requires AtItsName(output) && !ReadAsSummary(path)
    requires var last := Summarized(w, suite, output, path, further);
      i < |last| && IsSummary(last[i].path) && IsIndexed(last[i], output)
    ensures m < |suite| && suite[m] == Summarized(w, suite, output, path, further)[i]
  {
    var index := IndexOf(w, suite, output);
    var once := Put(suite, output, IndexDoc(index));
    m := i;
    if path.Some? { m := WriteFrom(once, path.value, SummaryDoc(Summary(Passes(w, once, index, further), index.checksum)), m); }
    if output.Some? { m := WriteFrom(suite, output.value, IndexDoc(index), m); }
  }

  /** Taking the summary out of the final index gives back the index from before it, whose checksum the
      summary recorded. */
  predicate Closes(w: World, suite: seq<Node>, output: Option<string>, path: Option<string>, further: seq<Reason>) {
    var projection := PreSummaryProjection(IndexOf(w, Summarized(w, suite, output, path, further), output));
    projection.Some? && IndexOf(w, suite, output).checksum == Some(OfPayload(projection.value))
  }

  /** The cycle closes exactly if the summary is written in the suite under the name of a summary, and the
      suite had none before. */
  lemma CycleCloses(w: World, suite: seq<Node>, output: Option<string>, path: Option<string>, further: seq<Reason>)
    requires AtItsName(output)
    ensures var last := Summarized(w, suite, output, path, further);
      BuildSummary(w, suite, output, path, further) == Build(w, last, output) && Build(w, last, output).Some?
    ensures Closes(w, suite, output, path, further)
            <==> ReadAsSummary(path) && !HasSummary(PayloadOf(w, suite, output).files)
  {
    var pre, last := IndexOf(w, suite, output), Summarized(w, suite, output, path, further);
    NoSummaryLeft(IndexOf(w, last, output).payload.files);
    WithoutNothing(pre.payload.files);
    if ReadAsSummary(path) {
      SummaryIsListed(w, suite, output, path.value, further);
      if Replaces(suite, path.value) {
        FinalIndex(w, suite, output, path.value, further);
      } else {
        EarlierFile(w, suite, output, path.value);
      }
    } else {
      NoNewSummary(w, suite, output, path, further);
    }
    if output.None? {
      assert Build(w, suite, output) == Some(suite);
    }
  }

  lemma {:induction false} SummaryPathIs(es: seq<Entry>)
    requires HasSummary(es)
    ensures IsSummary(SummaryPath(es)) && Lists(es, SummaryPath(es))
  {
    var n := |es| - 1;
    if IsSummary(es[n].path) {
      assert es[n].path == SummaryPath(es);
    } else {
      var i :| 0 <= i < |es| && IsSummary(es[i].path);
      assert es[..n][i] == es[i];
      SummaryPathIs(es[..n]);
      var k :| 0 <= k < |es[..n]| && es[..n][k].path == SummaryPath(es[..n]);
      assert es[k].path == SummaryPath(es);
    }
  }

  /** A summary entry of the final index is the new one or was there before. */
  lemma LastSummary(w: World, suite: seq<Node>, output: Option<string>, path: string, further: seq<Reason>)
    requires AtItsName(output) && IsSummary(path) && Replaces(suite, path)
    ensures var pre, files := PayloadOf(w, suite, output).files, PayloadOf(w, Summarized(w, suite, output, Some(path), further), output).files;
      HasSummary(files) && (SummaryPath(files) == path || HasSummary(pre))
  {
    var index, last := IndexOf(w, suite, output), Summarized(w, suite, output, Some(path), further);
    var once, pre, files := Put(suite, output, IndexDoc(index)), index.payload.files, PayloadOf(w, last, output).files;
    FinalIndex(w, suite, output, path, further);
    SummaryPathIs(files);
    TempOfIndexName();
    var k :| 0 <= k < |files| && files[k].path == SummaryPath(files);
    var i := EntriesHave(w, w.analyse(Evidence(last, output)), last, output, k);
    var j := WriteFrom(once, path, SummaryDoc(Summary(Passes(w, once, index, further), index.checksum)), i);
    if last[i].path != path {
      var m: nat := j;
      if output.Some? { m := WriteFrom(suite, INDEX_NAME, IndexDoc(index), j); }
      assert suite[m] == last[i];
      var l := EntriesList(w, w.analyse(Evidence(suite, output)), suite, output, m);
      assert IsSummary(pre[l].path);
    }
  }

  /** The document at the summary's path after the last indexing. */
  lemma SummaryIsKept(suite: seq<Node>, output: Option<string>, path: string, s: Summary, doc: Doc)
    requires Sorted(suite) && (output.Some? ==> output.value == INDEX_NAME) && IsSummary(path)
    ensures DocAt(Put(Write(suite, path, SummaryDoc(s)), output, doc), path) == Some(SummaryDoc(s))
  {
    var last := Write(suite, path, SummaryDoc(s));
    SummaryIsIndexed(path);
    WriteSorted(suite, path, SummaryDoc(s));
    PutSorted(last, output, doc);
    WriteWrites(suite, path, SummaryDoc(s));
    var j :| 0 <= j < |last| && last[j] == Node(path, SummaryDoc(s));
    var i: nat := j;
    if output.Some? { i := WriteHas(last, INDEX_NAME, doc, j); }
    DocAtIs(Put(last, output, doc), i);
  }

  lemma EarlierWouldShow(w: World, suite: seq<Node>, output: Option<string>, path: string)
    requires AtItsName(output) && IsSummary(path)
    ensures Replaces(suite, path) || HasSummary(PayloadOf(w, suite, output).files)
  {
    if !Replaces(suite, path) { EarlierFile(w, suite, output, path); }
  }

  /** Without an earlier summary, the only thing that can be held against the new one is that it did not
      pass itself - and not even that if it is not recognised as a summary, because then it is never read. */
  lemma CycleAccepted(w: World, suite: seq<Node>, output: Option<string>, path: Option<string>, further: seq<Reason>)
    requires Sorted(suite) && AtItsName(output) && !HasSummary(PayloadOf(w, suite, output).files)
    ensures var index, last := IndexOf(w, suite, output), Summarized(w, suite, output, path, further);
      var once, final := Put(suite, output, IndexDoc(index)), IndexOf(w, last, output);
      SummaryReasons(Put(last, output, IndexDoc(final)), final)
      == if !ReadAsSummary(path) || Passes(w, once, index, further) then [] else [SummaryNotPassed]
  {
    if ReadAsSummary(path) {
      SummaryAccepted(w, suite, output, path.value, further);
    } else {
      NoNewSummary(w, suite, output, path, further);
    }
  }

  lemma SummaryAccepted(w: World, suite: seq<Node>, output: Option<string>, path: string, further: seq<Reason>)
    requires Sorted(suite) && AtItsName(output) && IsSummary(path)
    requires !HasSummary(PayloadOf(w, suite, output).files)
    ensures var index, last := IndexOf(w, suite, output), Summarized(w, suite, output, Some(path), further);
      var once, final := Put(suite, output, IndexDoc(index)), IndexOf(w, last, output);
      SummaryReasons(Put(last, output, IndexDoc(final)), final)
      == if Passes(w, once, index, further) then [] else [SummaryNotPassed]
  {
    var index, last := IndexOf(w, suite, output), Summarized(w, suite, output, Some(path), further);
    var once, final := Put(suite, output, IndexDoc(index)), IndexOf(w, last, output);
    var s := Summary(Passes(w, once, index, further), index.checksum);
    EarlierWouldShow(w, suite, output, path);
    LastSummary(w, suite, output, path, further);
    CycleCloses(w, suite, output, Some(path), further);
    PutSorted(suite, output, IndexDoc(index));
    SummaryIsKept(once, output, path, s, IndexDoc(final));
    SummaryDecides(Put(last, output, IndexDoc(final)), final, path, s);
  }

  lemma SummaryDecides(suite: seq<Node>, index: Index, path: string, s: Summary)
    requires HasSummary(index.payload.files) && SummaryPath(index.payload.files) == path
    requires DocAt(suite, path) == Some(SummaryDoc(s)) && s.validated == Some(OfPayload(PreSummaryProjection(index).value))
    ensures SummaryReasons(suite, index) == if s.passed then [] else [SummaryNotPassed]
  {
  }

  /** Any other name inside the suite makes the second indexing refuse its own earlier output. */
  lemma MisplacedCycleFails(w: World, suite: seq<Node>, output: string, path: Option<string>, further: seq<Reason>)
    requires output != INDEX_NAME
    ensures BuildSummary(w, suite, Some(output), path, further).None?
  {
    var index := IndexOf(w, suite, Some(output));
    if !OutputAsInput(suite, Some(output)) {
      var once := Write(suite, output, IndexDoc(index));
      WriteWrites(suite, output, IndexDoc(index));
      var j :| 0 <= j < |once| && once[j] == Node(output, IndexDoc(index));
      var s := SummaryDoc(Summary(Passes(w, once, index, further), index.checksum));
      if path == Some(output) {
        WriteWrites(once, output, s);
      } else if path.Some? {
        var k := WriteHas(once, path.value, s, j);
      }
      assert Has(Put(once, path, s), output);
    }
  }

  // -------------------------------------------------------------------- the gate

  /** Any diagnostic recorded in the index fails the gate, and passing means that the index is exact. */
  lemma PassingMeans(w: World, suite: seq<Node>, index: Index, further: seq<Reason>)
    requires Distinct(suite) && Resolves(w, suite) && Passes(w, suite, index, further)
    ensures index.payload.diagnostics == [] && further == [] && SummaryReasons(suite, index) == []
    ensures index.checksum == Some(OfPayload(index.payload)) && Exact(w, suite, index.payload.files)
  {
    IntegrityIsExact(w, suite, index);
    var a := if Lists(index.payload.files, INDEX_NAME) then [SelfIncluded] else [];
    var b := if index.payload.diagnostics != [] then [HasDiagnostics(|index.payload.diagnostics|)] else [];
    var c, d := IntegrityReasons(w, suite, index), SummaryReasons(suite, index);
    assert GateReasons(w, suite, index, further) == a + b + c + d + further;
    assert |a + b + c + d + further| == |a| + |b| + |c| + |d| + |further|;
  }

  /** A suite whose index passes has every keyframe of every directory bound. */
  lemma PassedSuiteIsClosed(w: World, suite: seq<Node>, output: Option<string>, now: seq<Node>, further: seq<Reason>,
                            files: Capture.World, dirs: seq<Capture.Dir>)
    requires Distinct(now) && Resolves(w, now) && Passes(w, now, IndexOf(w, suite, output), further)
    requires w.analyse(Evidence(suite, output)).capture == Capture.Load(files, dirs).diags
    ensures forall i :: 0 <= i < |dirs| ==> CaptureLaws.Closed(files, dirs[i], Capture.Load(files, dirs).bindings)
  {
    PassingMeans(w, now, IndexOf(w, suite, output), further);
    var an := w.analyse(Evidence(suite, output));
    assert |CaptureDiags(an.capture) + an.other| == |an.capture| + |an.other|;
    CaptureLaws.NothingUnbound(files, dirs);
  }
}
