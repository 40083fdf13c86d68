/** Building and checking the evidence index as it runs, with lists that grow in loops; proved to compute
    module EvidenceIndex. */
module EvidenceIndexMethods {
  import opened Geometry
  import opened EvidenceIndex

  /** The entry list, file by file in path order. */
  method BuildEntries(w: World, an: Analysis, suite: seq<Node>, output: Option<string>) returns (entries: seq<Entry>)
    ensures entries == Entries(w, an, suite, output)
  {
    entries := [];
    for n := 0 to |suite|
      invariant entries + Entries(w, an, suite[n..], output) == Entries(w, an, suite, output)
    {
      assert suite[n..][1..] == suite[n + 1..];
      if !IsIndexed(suite[n], output) { continue; }
      entries := entries + [EntryOf(w, an, suite[n])];
    }
  }

  /** The suite as the tool sees it, and the two documents it writes. */
  class Indexer {
    const w: World
    var suite: seq<Node>

    constructor (w: World, suite: seq<Node>)
      ensures this.w == w && this.suite == suite
    {
      this.w, this.suite := w, suite;
    }

    method BuildEvidenceIndex(output: Option<string>) returns (index: Option<Index>)
      modifies this
      ensures index == if OutputAsInput(old(suite), output) then None else Some(IndexOf(w, old(suite), output))
      ensures suite == if index.Some? then Put(old(suite), output, IndexDoc(index.value)) else old(suite)
      ensures index.Some? ==> Build(w, old(suite), output) == Some(suite)
    {
      if OutputAsInput(suite, output) { return None; }
      var an := w.analyse(Evidence(suite, output));
      var entries := BuildEntries(w, an, suite, output);
      var payload := Payload(entries, CaptureDiags(an.capture) + an.other, an.scenarios);
      index := Some(Index(payload, Some(OfPayload(payload))));
      if output.Some? { suite := Write(suite, output.value, IndexDoc(index.value)); }
    }

    method EntryProblems(e: Entry) returns (reasons: seq<Reason>)
      ensures reasons == EntryReasons(w, suite, e)
    {
      reasons := if e.sha.Malformed? then [MalformedDigest(e.path)] else [];
      var path := w.resolve(e.path);
      if path.None? { return reasons + [Escapes(e.path)]; }
      var doc := DocAt(suite, path.value);
      if doc.None? { return reasons + [MissingFile(e.path)]; }
      if Hex(OfDoc(doc.value)) != e.sha { reasons := reasons + [DigestMismatch(e.path)]; }
      if w.sizeOf(doc.value) != e.size { reasons := reasons + [SizeMismatch(e.path)]; }
    }

    method EntriesProblems(es: seq<Entry>) returns (reasons: seq<Reason>)
      ensures reasons == AllEntryReasons(w, suite, es)
    {
      reasons := [];
      assert es[0..] == es;
      for k := 0 to |es|
        invariant Covers(reasons, AllEntryReasons(w, suite, es[k..]), AllEntryReasons(w, suite, es))
      {
        AllReasonsNext(w, suite, es, k);
        var more := EntryProblems(es[k]);
        CoversMore(reasons, more, AllEntryReasons(w, suite, es[k + 1..]), AllEntryReasons(w, suite, es));
        reasons := reasons + more;
      }
      assert AllEntryReasons(w, suite, es[|es|..]) == [];
    }

    method UnindexedFiles(es: seq<Entry>) returns (reasons: seq<Reason>)
      ensures reasons == UnindexedReasons(suite, es)
    {
      reasons := [];
      assert suite[0..] == suite;
      for n := 0 to |suite|
        invariant Covers(reasons, UnindexedReasons(suite[n..], es), UnindexedReasons(suite, es))
      {
        UnindexedNext(suite, es, n);
        if Preserved(suite[n]) && !Lists(es, suite[n].path) {
          CoversMore(reasons, [Unindexed(suite[n].path)], UnindexedReasons(suite[n + 1..], es), UnindexedReasons(suite, es));
          reasons := reasons + [Unindexed(suite[n].path)];
        }
      }
      assert UnindexedReasons(suite[|suite|..], es) == [];
    }

    method StaleEntries(es: seq<Entry>) returns (reasons: seq<Reason>)
      ensures reasons == StaleReasons(suite, es)
    {
      reasons := [];
      assert es[0..] == es;
      for k := 0 to |es|
        invariant Covers(reasons, StaleReasons(suite, es[k..]), StaleReasons(suite, es))
      {
        StaleNext(suite, es, k);
        if !IsPreserved(suite, es[k].path) {
          CoversMore(reasons, [StaleEntry(es[k].path)], StaleReasons(suite, es[k + 1..]), StaleReasons(suite, es));
          reasons := reasons + [StaleEntry(es[k].path)];
        }
      }
      assert StaleReasons(suite, es[|es|..]) == [];
    }

    method ValidateIndexIntegrity(index: Index) returns (reasons: seq<Reason>)
      ensures reasons == IntegrityReasons(w, suite, index)
    {
      reasons := if index.checksum != Some(OfPayload(index.payload)) then [WrongChecksum] else [];
      var entries := EntriesProblems(index.payload.files);
      var missing := UnindexedFiles(index.payload.files);
      var extra := StaleEntries(index.payload.files);
      reasons := reasons + entries + missing + extra;
    }

    /** Index, verdict, summary, index again; further holds the other reasons of the verdict. */
    method BuildQualificationSummary(output: Option<string>, path: Option<string>, further: seq<Reason>) returns (done: bool)
      modifies this
      ensures done <==> BuildSummary(w, old(suite), output, path, further).Some?
      ensures done ==> Some(suite) == BuildSummary(w, old(suite), output, path, further)
    {
      var index := BuildEvidenceIndex(output);
      if index.None? { return false; }
      var passed := ValidateGateF(index.value, further);
      if path.Some? { suite := Write(suite, path.value, SummaryDoc(Summary(passed, index.value.checksum))); }
      index := BuildEvidenceIndex(output);
      done := index.Some?;
    }

    method ValidateGateF(index: Index, further: seq<Reason>) returns (passed: bool)
      ensures passed <==> Passes(w, suite, index, further)
    {
      if !DistinctPaths(index.payload.files) { return false; }
      var reasons := if Lists(index.payload.files, INDEX_NAME) then [SelfIncluded] else [];
      if index.payload.diagnostics != [] { reasons := reasons + [HasDiagnostics(|index.payload.diagnostics|)]; }
      var more := ValidateIndexIntegrity(index);
      reasons := reasons + more + SummaryReasons(suite, index) + further;
      passed := reasons == [];
    }
  }

  /** What is found so far and what is still to come make up all. */
  predicate Covers(found: seq<Reason>, rest: seq<Reason>, all: seq<Reason>) { found + rest == all }

  lemma CoversMore(found: seq<Reason>, more: seq<Reason>, rest: seq<Reason>, all: seq<Reason>)
    requires Covers(found, more + rest, all)
    ensures Covers(found + more, rest, all)
  {
    assert found + (more + rest) == found + more + rest;
  }

  lemma AllReasonsNext(w: World, suite: seq<Node>, es: seq<Entry>, k: nat)
    requires k < |es|
    ensures AllEntryReasons(w, suite, es[k..]) == EntryReasons(w, suite, es[k]) + AllEntryReasons(w, suite, es[k + 1..])
  {
    assert es[k..][1..] == es[k + 1..];
  }

  lemma UnindexedNext(suite: seq<Node>, es: seq<Entry>, n: nat)
    requires n < |suite|
    ensures UnindexedReasons(suite[n..], es) ==
      if Preserved(suite[n]) && !Lists(es, suite[n].path)
      then [Unindexed(suite[n].path)] + UnindexedReasons(suite[n + 1..], es) else UnindexedReasons(suite[n + 1..], es)
  {
    assert suite[n..][1..] == suite[n + 1..];
  }

  lemma StaleNext(suite: seq<Node>, es: seq<Entry>, k: nat)
    requires k < |es|
    ensures StaleReasons(suite, es[k..]) ==
      if IsPreserved(suite, es[k].path) then StaleReasons(suite, es[k + 1..])
      else [StaleEntry(es[k].path)] + StaleReasons(suite, es[k + 1..])
  {
    assert es[k..][1..] == es[k + 1..];
  }

  /** A summary entry is among the first k. */
  predicate FoundIn(es: seq<Entry>, k: nat)
    requires k <= |es|
  {
    k > 0 && (FoundIn(es, k - 1) || IsSummary(es[k - 1].path))
  }

  lemma {:induction false} FoundAmong(es: seq<Entry>, k: nat)
    requires k <= |es|
    ensures FoundIn(es, k) <==> exists i :: 0 <= i < k && IsSummary(es[i].path)
  {
    if k > 0 { FoundAmong(es, k - 1); }
  }

  /** What the loop has sorted out of the first k entries. */
  predicate SplitUpTo(es: seq<Entry>, k: nat, remaining: seq<Entry>, found: bool)
    requires k <= |es|
  {
    remaining + WithoutSummary(es[k..]) == WithoutSummary(es) && found == FoundIn(es, k)
  }

  lemma WithoutNext(es: seq<Entry>, k: nat)
    requires k < |es|
    ensures WithoutSummary(es[k..]) ==
      if IsSummary(es[k].path) then WithoutSummary(es[k + 1..]) else [es[k]] + WithoutSummary(es[k + 1..])
  {
    assert es[k..][1..] == es[k + 1..];
  }

  lemma Reassociate(a: seq<Entry>, e: Entry, b: seq<Entry>)
    ensures a + ([e] + b) == a + [e] + b
  {
  }

  lemma SplitNext(es: seq<Entry>, k: nat, remaining: seq<Entry>, found: bool)
    requires k < |es| && SplitUpTo(es, k, remaining, found)
    ensures SplitUpTo(es, k + 1, if IsSummary(es[k].path) then remaining else remaining + [es[k]],
                      found || IsSummary(es[k].path))
  {
    WithoutNext(es, k);
    Reassociate(remaining, es[k], WithoutSummary(es[k + 1..]));
  }

  lemma SplitEnds(es: seq<Entry>, remaining: seq<Entry>, found: bool)
    requires SplitUpTo(es, |es|, remaining, found)
    ensures remaining == WithoutSummary(es) && found == HasSummary(es)
  {
    FoundAmong(es, |es|);
    assert WithoutSummary(es[|es|..]) == [];
  }

  /** The other entries, and whether there are summary entries at all. */
  method SplitSummary(es: seq<Entry>) returns (remaining: seq<Entry>, found: bool)
    ensures remaining == WithoutSummary(es) && found == HasSummary(es)
  {
    remaining, found := [], false;
    assert es[0..] == es;
    for k := 0 to |es|
      invariant SplitUpTo(es, k, remaining, found)
    {
      SplitNext(es, k, remaining, found);
      if IsSummary(es[k].path) { found := true; } else { remaining := remaining + [es[k]]; }
    }
    SplitEnds(es, remaining, found);
  }

  /** The index without its summary entries. */
  method Project(index: Index) returns (projection: Option<Payload>)
    ensures projection == PreSummaryProjection(index)
  {
    var remaining, found := SplitSummary(index.payload.files);
    projection := if found then Some(index.payload.(files := remaining)) else None;
  }
}
