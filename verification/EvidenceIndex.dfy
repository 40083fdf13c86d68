/** The evidence index over a suite's files, its integrity check, and the cycle in which a summary
    records the checksum of the index from before the summary was there. */
module EvidenceIndex {
  import opened Geometry
  import Capture

  const INDEX_NAME := "evidence-index.json"
  const SUMMARY_NAME := "qualification-summary.json"
  const TEMP_PREFIXES: seq<string> := [".evidence-index.json.", ".qualification-summary.json.",
                                       ".contact-sheet-integrated-", ".contact-sheet-"]

  // ------------------------------------------------------------- documents

  /** A file's content: plain bytes, or one of the two documents written here. A file that reads as a
      summary is a SummaryDoc, whoever wrote it. */
  datatype Doc = Bytes(data: seq<int>) | IndexDoc(index: Index) | SummaryDoc(summary: Summary)

  /** A digest determines what was digested. */
  datatype Digest = OfDoc(doc: Doc) | OfPayload(payload: Payload)

  /** A digest field of an entry, which in an arbitrary index need not be one. */
  datatype Sha = Hex(digest: Digest) | Malformed

  /** extra stands for the identity and capture fields. */
  datatype Entry = Entry(path: string, sha: Sha, size: int, extra: seq<string>)

  datatype Diag = FromCapture(code: Capture.Code) | OtherDiag(text: string)

  /** An index without its own checksum. */
  datatype Payload = Payload(files: seq<Entry>, diagnostics: seq<Diag>, scenarios: seq<string>)

  datatype Index = Index(payload: Payload, checksum: Option<Digest>)

  datatype Summary = Summary(passed: bool, validated: Option<Digest>)

  /** The suite's regular files in path order. */
  datatype Node = Node(path: string, doc: Doc)

  function BaseName(s: string): string {
    if s == [] then [] else if s[|s| - 1] == '/' then [] else BaseName(s[..|s| - 1]) + [s[|s| - 1]]
  }

  predicate IsSummary(path: string) { BaseName(path) == SUMMARY_NAME }

  predicate IsTemp(path: string) { exists i :: 0 <= i < |TEMP_PREFIXES| && TEMP_PREFIXES[i] <= BaseName(path) }

  predicate Less(a: string, b: string) {
    b != [] && (a == [] || a[0] < b[0] || (a[0] == b[0] && Less(a[1..], b[1..])))
  }

  /** Replaces the file at path, or adds it at its place. */
  function Write(suite: seq<Node>, path: string, doc: Doc): seq<Node> {
    if suite == [] then [Node(path, doc)]
    else if suite[0].path == path then [Node(path, doc)] + suite[1..]
    else if Less(path, suite[0].path) then [Node(path, doc)] + suite
    else [suite[0]] + Write(suite[1..], path, doc)
  }

  /** The suite has a file at path. */
  predicate Has(suite: seq<Node>, path: string) { exists i :: 0 <= i < |suite| && suite[i].path == path }

  /** What is read out of the suite's files: the diagnostics of the capture join, other ones, and the
      declared scenarios. */
  datatype Analysis = Analysis(capture: seq<Capture.Code>, other: seq<Diag>, scenarios: seq<string>)

  datatype World = World(sizeOf: Doc -> nat, analyse: seq<Node> -> Analysis, describe: (Analysis, string, Doc) -> seq<string>,
                         resolve: string -> Option<string>)

  // ------------------------------------------------------------------ building

  function EntryOf(w: World, an: Analysis, n: Node): Entry {
    Entry(n.path, Hex(OfDoc(n.doc)), w.sizeOf(n.doc), w.describe(an, n.path, n.doc))
  }

  /** Every file but temporary ones and the index itself, which goes to output. */
  predicate IsIndexed(n: Node, output: Option<string>) { !IsTemp(n.path) && Some(n.path) != output }

  function Entries(w: World, an: Analysis, suite: seq<Node>, output: Option<string>): seq<Entry> {
    if suite == [] then []
    else
      var rest := Entries(w, an, suite[1..], output);
      if IsIndexed(suite[0], output) then [EntryOf(w, an, suite[0])] + rest else rest
  }

  function CaptureDiags(codes: seq<Capture.Code>): seq<Diag> { seq(|codes|, i requires 0 <= i < |codes| => FromCapture(codes[i])) }

  /** The evidence proper: neither the index at output nor a summary document. */
  function Evidence(suite: seq<Node>, output: Option<string>): seq<Node> {
    if suite == [] then []
    else
      var rest := Evidence(suite[1..], output);
      if Some(suite[0].path) == output || (IsSummary(suite[0].path) && suite[0].doc.SummaryDoc?) then rest
      else [suite[0]] + rest
  }

  function PayloadOf(w: World, suite: seq<Node>, output: Option<string>): Payload {
    var an := w.analyse(Evidence(suite, output));
    Payload(Entries(w, an, suite, output), CaptureDiags(an.capture) + an.other, an.scenarios)
  }

  function IndexOf(w: World, suite: seq<Node>, output: Option<string>): Index {
    Index(PayloadOf(w, suite, output), Some(OfPayload(PayloadOf(w, suite, output))))
  }

  /** An index is not written over an evidence file. */
  predicate OutputAsInput(suite: seq<Node>, output: Option<string>) {
    output.Some? && output.value != INDEX_NAME && Has(suite, output.value)
  }

  function Put(suite: seq<Node>, output: Option<string>, doc: Doc): seq<Node> {
    if output.None? then suite else Write(suite, output.value, doc)
  }

  /** The suite after writing its index, None if that is refused. output is None outside the suite. */
  function Build(w: World, suite: seq<Node>, output: Option<string>): Option<seq<Node>> {
    if OutputAsInput(suite, output) then None else Some(Put(suite, output, IndexDoc(IndexOf(w, suite, output))))
  }

  // ----------------------------------------------------------------- integrity

  datatype Reason =
    | WrongChecksum | MalformedDigest(path: string) | Escapes(path: string) | MissingFile(path: string)
    | DigestMismatch(path: string) | SizeMismatch(path: string) | Unindexed(path: string) | StaleEntry(path: string)
    | SelfIncluded | HasDiagnostics(n: int)
    | UnreadableSummary | SummaryChecksum | SummaryNotPassed
    | Further(text: string)

  function DocAt(suite: seq<Node>, path: string): Option<Doc> {
    if suite == [] then None else if suite[0].path == path then Some(suite[0].doc) else DocAt(suite[1..], path)
  }

  function EntryReasons(w: World, suite: seq<Node>, e: Entry): seq<Reason> {
    var malformed := if e.sha.Malformed? then [MalformedDigest(e.path)] else [];
    if w.resolve(e.path).None? then malformed + [Escapes(e.path)]
    else
      var doc := DocAt(suite, w.resolve(e.path).value);
      if doc.None? then malformed + [MissingFile(e.path)]
      else
        malformed + (if Hex(OfDoc(doc.value)) != e.sha then [DigestMismatch(e.path)] else [])
        + (if w.sizeOf(doc.value) != e.size then [SizeMismatch(e.path)] else [])
  }

  function AllEntryReasons(w: World, suite: seq<Node>, es: seq<Entry>): seq<Reason> {
    if es == [] then [] else EntryReasons(w, suite, es[0]) + AllEntryReasons(w, suite, es[1..])
  }

  predicate Preserved(n: Node) { !IsTemp(n.path) && n.path != INDEX_NAME }

  predicate Lists(es: seq<Entry>, path: string) { exists i :: 0 <= i < |es| && es[i].path == path }

  function UnindexedReasons(suite: seq<Node>, es: seq<Entry>): seq<Reason> {
    if suite == [] then []
    else
      var rest := UnindexedReasons(suite[1..], es);
      if Preserved(suite[0]) && !Lists(es, suite[0].path) then [Unindexed(suite[0].path)] + rest else rest
  }

  predicate IsPreserved(suite: seq<Node>, path: string) { exists i :: 0 <= i < |suite| && suite[i].path == path && Preserved(suite[i]) }

  function StaleReasons(suite: seq<Node>, es: seq<Entry>): seq<Reason> {
    if es == [] then []
    else
      var rest := StaleReasons(suite, es[1..]);
      if !IsPreserved(suite, es[0].path) then [StaleEntry(es[0].path)] + rest else rest
  }

  function IntegrityReasons(w: World, suite: seq<Node>, index: Index): seq<Reason> {
    (if index.checksum != Some(OfPayload(index.payload)) then [WrongChecksum] else [])
    + AllEntryReasons(w, suite, index.payload.files)
    + UnindexedReasons(suite, index.payload.files) + StaleReasons(suite, index.payload.files)
  }

  // ------------------------------------------------------------- the summary cycle

  function WithoutSummary(es: seq<Entry>): seq<Entry> {
    if es == [] then []
    else
      var rest := WithoutSummary(es[1..]);
      if IsSummary(es[0].path) then rest else [es[0]] + rest
  }

  predicate HasSummary(es: seq<Entry>) { exists i :: 0 <= i < |es| && IsSummary(es[i].path) }

  /** The index without its summary entries, None if there are none. */
  function PreSummaryProjection(index: Index): Option<Payload> {
    if HasSummary(index.payload.files) then Some(index.payload.(files := WithoutSummary(index.payload.files))) else None
  }

  /** The path of the last summary entry. */
  function SummaryPath(es: seq<Entry>): string
    requires HasSummary(es)
  {
    if IsSummary(es[|es| - 1].path) then es[|es| - 1].path else SummaryPath(es[..|es| - 1])
  }

  function SummaryReasons(suite: seq<Node>, index: Index): seq<Reason> {
    var files := index.payload.files;
    if !HasSummary(files) then []
    else
      match DocAt(suite, SummaryPath(files))
      case Some(SummaryDoc(s)) =>
        (if s.validated != Some(OfPayload(PreSummaryProjection(index).value)) then [SummaryChecksum] else [])
        + (if s.passed then [] else [SummaryNotPassed])
      case _ => [UnreadableSummary]
  }

  /** The reasons against an index; further ones come from the artifact validators. */
  function GateReasons(w: World, suite: seq<Node>, index: Index, further: seq<Reason>): seq<Reason> {
    (if Lists(index.payload.files, INDEX_NAME) then [SelfIncluded] else [])
    + (if index.payload.diagnostics != [] then [HasDiagnostics(|index.payload.diagnostics|)] else [])
    + IntegrityReasons(w, suite, index) + SummaryReasons(suite, index) + further
  }

  /** Validation raises when a path is listed twice. */
  predicate DistinctPaths(es: seq<Entry>) { forall i, j :: 0 <= i < j < |es| ==> es[i].path != es[j].path }

  predicate Passes(w: World, suite: seq<Node>, index: Index, further: seq<Reason>) {
    DistinctPaths(index.payload.files) && GateReasons(w, suite, index, further) == []
  }

  /** Index, verdict, summary, index again. None if an index cannot be written. summaryPath is None outside
      the suite. */
  function BuildSummary(w: World, suite: seq<Node>, output: Option<string>, summaryPath: Option<string>, further: seq<Reason>):
    Option<seq<Node>>
  {
    match Build(w, suite, output)
    case None => None
    case Some(once) =>
      var index := IndexOf(w, suite, output);
      var summary := Summary(Passes(w, once, index, further), index.checksum);
      Build(w, Put(once, summaryPath, SummaryDoc(summary)), output)
  }

  /** The suite as the last index of the cycle finds it. */
  function Summarized(w: World, suite: seq<Node>, output: Option<string>, summaryPath: Option<string>, further: seq<Reason>):
    seq<Node>
  {
    var once := Put(suite, output, IndexDoc(IndexOf(w, suite, output)));
    Put(once, summaryPath, SummaryDoc(Summary(Passes(w, once, IndexOf(w, suite, output), further), IndexOf(w, suite, output).checksum)))
  }
}
