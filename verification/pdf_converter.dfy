/**
 * Word-to-PDF conversion through the LibreOffice command line
 * (`PDFConverter`). The external tool is an oracle from the invocation to
 * its outcome; the files it leaves behind are part of that outcome.
 * Success is never taken from the tool's exit status: a document counts
 * as converted exactly when `<stem>.pdf` exists afterwards.
 */
module PdfConverter {
  import opened Wrappers
  import opened Text
  import opened Filenames

  /** One run of the external program: what it is given and how long it may take. */
  datatype Invocation = Invocation(program: string, args: seq<string>, timeoutSeconds: nat)

  /** What one run of the external program came to. */
  datatype ToolRun =
    | Completed(exitCode: int, stdout: string, stderr: string, produced: set<string>)  // file names present in the output directory afterwards
    | TimedOut
    | Raised(message: string)

  /** The outcome oracle: how the tool responds to each invocation. */
  type Tool = Invocation -> ToolRun

  const NotFoundMessage: string := "LibreOffice not found. Please install LibreOffice or provide the path."

  /**
   * The constructor: an explicit non-empty path wins, otherwise the one
   * the platform search found; with neither, construction raises.
   */
  function Locate(given: Option<string>, found: Option<string>): (r: Result<string, string>)
    ensures r.Ok? ==> r.value != []
    ensures r.Ok? <==> (given.Some? && given.value != []) || (found.Some? && found.value != [])
    ensures r.Err? ==> r.error == NotFoundMessage
    ensures given.Some? && given.value != [] ==> r == Ok(given.value)
  {
    var path := if given.Some? && given.value != [] then given else found;
    if path.Some? && path.value != [] then Ok(path.value) else Err(NotFoundMessage)
  }

  /** The command line that converts `inputs` into `outDir`. */
  function ConvertArgs(outDir: string, inputs: seq<string>): seq<string> {
    ["--headless", "--convert-to", "pdf", "--outdir", outDir] + inputs
  }

  /** The PDF the tool is expected to write for a document: its stem with ".pdf". */
  function PdfName(docxPath: string): string {
    Stem(BaseName(docxPath)) + ".pdf"
  }

  predicate Converted(docxPath: string, produced: set<string>) {
    PdfName(docxPath) in produced
  }

  /** `is_available`: there is a non-empty path and `--version` exits with status 0. */
  function IsAvailable(path: Option<string>, tool: Tool): (r: bool)
    ensures r ==> path.Some? && path.value != []
    ensures path.Some? && path.value != [] ==>
      (r <==> tool(Invocation(path.value, ["--version"], 10)).Completed? && tool(Invocation(path.value, ["--version"], 10)).exitCode == 0)
  {
    if path.None? || path.value == [] then false
    else
      match tool(Invocation(path.value, ["--version"], 10))
      case Completed(code, _, _, _) => code == 0
      case TimedOut => false
      case Raised(_) => false
  }

  /** `convert`'s result: success, the PDF path or the error message, and the error detail. */
  datatype ConvertResult = ConvertResult(ok: bool, message: string, detail: Option<string>)

  /** Python's `a or b or c` on strings: the first non-empty one. */
  function FirstNonEmpty(a: string, b: string, c: string): (r: string)
    ensures r == a || r == b || r == c
    ensures a != [] ==> r == a
    ensures a == [] && b != [] ==> r == b
  {
    if a != [] then a else if b != [] then b else c
  }

  /**
   * `convert`: a single document. A missing input is reported without
   * running the tool; otherwise the document is converted exactly when its
   * PDF exists afterwards.
   */
  function Convert(exe: string, docxPath: string, outDir: string, timeoutSeconds: nat, existing: set<string>, tool: Tool): (r: ConvertResult)
    ensures docxPath !in existing ==> r == ConvertResult(false, "File not found: " + docxPath, None)
    ensures docxPath in existing ==>
      var run := tool(Invocation(exe, ConvertArgs(outDir, [docxPath]), timeoutSeconds));
      r.ok <==> run.Completed? && Converted(docxPath, run.produced)
    ensures r.ok ==> r.message == outDir + "/" + PdfName(docxPath) && r.detail.None?
  {
    if docxPath !in existing then ConvertResult(false, "File not found: " + docxPath, None)
    else
      match tool(Invocation(exe, ConvertArgs(outDir, [docxPath]), timeoutSeconds))
      case Completed(_, out, err, produced) =>
        if Converted(docxPath, produced) then ConvertResult(true, outDir + "/" + PdfName(docxPath), None)
        else ConvertResult(false, "Conversion failed: " + FirstNonEmpty(err, out, "Unknown error"), Some(err))
      case TimedOut =>
        ConvertResult(false, "Conversion timed out after " + NatToString(timeoutSeconds) + " seconds", None)
      case Raised(e) =>
        ConvertResult(false, "Conversion error: " + e, Some(e))
  }

  /** One entry of `convert_batch`: the document's stem, success, and PDF path or error. */
  datatype BatchEntry = BatchEntry(stem: string, ok: bool, message: string)

  /** `convert_batch`: `convert` on each document in turn, one entry per document, in order. */
  function ConvertBatch(exe: string, files: seq<string>, outDir: string, timeoutSeconds: nat, existing: set<string>, tool: Tool): (r: seq<BatchEntry>)
    ensures |r| == |files|
    ensures forall k :: 0 <= k < |files| ==>
      var c := Convert(exe, files[k], outDir, timeoutSeconds, existing, tool);
      r[k] == BatchEntry(Stem(BaseName(files[k])), c.ok, c.message)
  {
    seq(|files|, k requires 0 <= k < |files| =>
      var c := Convert(exe, files[k], outDir, timeoutSeconds, existing, tool);
      BatchEntry(Stem(BaseName(files[k])), c.ok, c.message))
  }

  /** Only the PDF left behind matters: two completed runs with the same outputs agree, whatever their exit status. */
  lemma ConvertIgnoresExitStatus(exe: string, docxPath: string, outDir: string, timeoutSeconds: nat, existing: set<string>, tool1: Tool, tool2: Tool)
    requires var inv := Invocation(exe, ConvertArgs(outDir, [docxPath]), timeoutSeconds);
      tool1(inv).Completed? && tool2(inv).Completed? && tool1(inv).produced == tool2(inv).produced
    ensures var r1 := Convert(exe, docxPath, outDir, timeoutSeconds, existing, tool1);
      var r2 := Convert(exe, docxPath, outDir, timeoutSeconds, existing, tool2);
      r1.ok == r2.ok && (r1.ok ==> r1 == r2)
  {
  }

  /** A batch entry is a success only for a document that exists, and a missing one is reported by its path. */
  lemma ConvertBatchMissingFails(exe: string, files: seq<string>, outDir: string, timeoutSeconds: nat, existing: set<string>, tool: Tool, k: nat)
    requires k < |files|
    ensures var r := ConvertBatch(exe, files, outDir, timeoutSeconds, existing, tool);
      && (r[k].ok ==> files[k] in existing)
      && (files[k] !in existing ==> r[k] == BatchEntry(Stem(BaseName(files[k])), false, "File not found: " + files[k]))
  {
  }

  /** The counts and messages `convert_batch_single_call` returns. */
  datatype BatchResult = BatchResult(successCount: nat, failureCount: nat, errors: seq<string>)

  /** What the check after a batch looks for per document, and the name its error message shows. */
  datatype Expected = Expected(pdf: string, shown: string)

  function ExpectedOf(docxPath: string): Expected {
    Expected(PdfName(docxPath), BaseName(docxPath))
  }

  function Expectations(files: seq<string>): (r: seq<Expected>)
    ensures |r| == |files|
    ensures forall j :: 0 <= j < |files| ==> r[j] == ExpectedOf(files[j])
  {
    seq(|files|, j requires 0 <= j < |files| => ExpectedOf(files[j]))
  }

  function FailureMessage(e: Expected): string {
    "Failed to convert: " + e.shown
  }

  /**
   * The check after a completed batch run: each document is a success if
   * its PDF exists and otherwise a failure with its own message, in input order.
   */
  function Reconcile(expected: seq<Expected>, produced: set<string>): (r: BatchResult)
    ensures r.successCount + r.failureCount == |expected|
    ensures |r.errors| == r.failureCount
    decreases |expected|
  {
    if expected == [] then BatchResult(0, 0, [])
    else
      Tally(Reconcile(expected[..|expected| - 1], produced), expected[|expected| - 1], produced)
  }

  /** One more document checked: a success if its PDF exists, otherwise a failure with its message. */
  function Tally(prior: BatchResult, e: Expected, produced: set<string>): BatchResult {
    if e.pdf in produced then BatchResult(prior.successCount + 1, prior.failureCount, prior.errors)
    else BatchResult(prior.successCount, prior.failureCount + 1, prior.errors + [FailureMessage(e)])
  }

  /** A batch has no failure exactly when every document's PDF exists. */
  lemma {:induction false} ReconcileFailsIffMissing(expected: seq<Expected>, produced: set<string>)
    ensures Reconcile(expected, produced).failureCount == 0
        <==> forall j :: 0 <= j < |expected| ==> expected[j].pdf in produced
    decreases |expected|
  {
    if expected != [] {
      var p := expected[..|expected| - 1];
      ReconcileFailsIffMissing(p, produced);
      assert forall j :: 0 <= j < |p| ==> p[j] == expected[j];
    }
  }

  /** Every document whose PDF is missing has its message among the errors. */
  lemma {:induction false} ReconcileReportsMissing(expected: seq<Expected>, produced: set<string>, j: nat)
    requires j < |expected| && expected[j].pdf !in produced
    ensures FailureMessage(expected[j]) in Reconcile(expected, produced).errors
    decreases |expected|
  {
    if j < |expected| - 1 {
      ReconcileReportsMissing(expected[..|expected| - 1], produced, j);
    }
  }

  /** Every error names a document of the batch whose PDF is missing. */
  lemma {:induction false} ReconcileReportsOnlyMissing(expected: seq<Expected>, produced: set<string>, k: nat)
    requires k < |Reconcile(expected, produced).errors|
    ensures exists j ::
      && 0 <= j < |expected|
      && expected[j].pdf !in produced
      && Reconcile(expected, produced).errors[k] == FailureMessage(expected[j])
    decreases |expected|
  {
    var p := expected[..|expected| - 1];
    var prior := Reconcile(p, produced);
    if k < |prior.errors| {
      ReconcileReportsOnlyMissing(p, produced, k);
      var j :| 0 <= j < |p| && p[j].pdf !in produced && prior.errors[k] == FailureMessage(p[j]);
      assert expected[j] == p[j];
    }
  }

  /** Results of two consecutive parts of a batch, put together. */
  function Combine(a: BatchResult, b: BatchResult): BatchResult {
    BatchResult(a.successCount + b.successCount, a.failureCount + b.failureCount, a.errors + b.errors)
  }

  lemma TallyAfterCombine(x: BatchResult, y: BatchResult, e: Expected, produced: set<string>)
    ensures Tally(Combine(x, y), e, produced) == Combine(x, Tally(y, e, produced))
  {
    assert x.errors + (y.errors + [FailureMessage(e)]) == (x.errors + y.errors) + [FailureMessage(e)];
  }

  /** One document on its own: a success, or a failure carrying its message. */
  lemma ReconcileOne(e: Expected, produced: set<string>)
    ensures Reconcile([e], produced) ==
      if e.pdf in produced then BatchResult(1, 0, []) else BatchResult(0, 1, [FailureMessage(e)])
  {
    assert [e][..0] == [];
  }

  /** Reconciliation works document by document: the errors of a batch are those of its parts, in input order. */
  lemma {:induction false} ReconcileAppend(a: seq<Expected>, b: seq<Expected>, produced: set<string>)
    ensures Reconcile(a + b, produced) == Combine(Reconcile(a, produced), Reconcile(b, produced))
    decreases |b|
  {
    if b == [] {
      assert a + b == a;
    } else {
      var b', last := b[..|b| - 1], b[|b| - 1];
      var ab := a + b;
      assert ab[..|ab| - 1] == a + b' && ab[|ab| - 1] == last;
      calc {
        Reconcile(ab, produced);
        Tally(Reconcile(a + b', produced), last, produced);
        { ReconcileAppend(a, b', produced); }
        Tally(Combine(Reconcile(a, produced), Reconcile(b', produced)), last, produced);
        { TallyAfterCombine(Reconcile(a, produced), Reconcile(b', produced), last, produced); }
        Combine(Reconcile(a, produced), Tally(Reconcile(b', produced), last, produced));
      }
    }
  }

  /** The single batch invocation: every document at once, with a timeout that grows with the batch. */
  function BatchInvocation(exe: string, files: seq<string>, outDir: string, timeoutSeconds: nat): (inv: Invocation)
    ensures inv.timeoutSeconds == timeoutSeconds * |files|
    ensures |inv.args| == 5 + |files| && inv.args[5..] == files
  {
    Invocation(exe, ConvertArgs(outDir, files), timeoutSeconds * |files|)
  }

  /**
   * `convert_batch_single_call`: no documents means no run; a completed run
   * is reconciled file by file whatever its exit status; a timeout or an
   * exception fails the whole batch with one message.
   */
  function ConvertBatchSingleCall(exe: string, files: seq<string>, outDir: string, timeoutSeconds: nat, tool: Tool): (r: BatchResult)
    ensures r.successCount + r.failureCount == |files|
    ensures files == [] ==> r == BatchResult(0, 0, [])
    ensures files != [] ==> match tool(BatchInvocation(exe, files, outDir, timeoutSeconds))
      case Completed(_, _, _, produced) => r == Reconcile(Expectations(files), produced)
      case TimedOut => r == BatchResult(0, |files|, ["Batch conversion timed out"])
      case Raised(e) => r == BatchResult(0, |files|, ["Batch conversion error: " + e])
  {
    if files == [] then BatchResult(0, 0, [])
    else
      match tool(BatchInvocation(exe, files, outDir, timeoutSeconds))
      case Completed(_, _, _, produced) => Reconcile(Expectations(files), produced)
      case TimedOut => BatchResult(0, |files|, ["Batch conversion timed out"])
      case Raised(e) => BatchResult(0, |files|, ["Batch conversion error: " + e])
  }

  /** An empty batch never reaches the tool: any two tools give the same empty result. */
  lemma EmptyBatchRunsNothing(exe: string, outDir: string, timeoutSeconds: nat, tool1: Tool, tool2: Tool)
    ensures ConvertBatchSingleCall(exe, [], outDir, timeoutSeconds, tool1)
         == ConvertBatchSingleCall(exe, [], outDir, timeoutSeconds, tool2)
         == BatchResult(0, 0, [])
  {
  }

  /** Only the files left behind matter: two completed runs with the same outputs agree, whatever their exit status and messages. */
  lemma ExitStatusIgnored(exe: string, files: seq<string>, outDir: string, timeoutSeconds: nat, tool1: Tool, tool2: Tool)
    requires var inv := BatchInvocation(exe, files, outDir, timeoutSeconds);
      tool1(inv).Completed? && tool2(inv).Completed? && tool1(inv).produced == tool2(inv).produced
    ensures ConvertBatchSingleCall(exe, files, outDir, timeoutSeconds, tool1)
         == ConvertBatchSingleCall(exe, files, outDir, timeoutSeconds, tool2)
  {
  }

  /** A run that ends early fails every document and records exactly one error. */
  lemma AbortedBatchFailsAll(exe: string, files: seq<string>, outDir: string, timeoutSeconds: nat, tool: Tool)
    requires files != [] && !tool(BatchInvocation(exe, files, outDir, timeoutSeconds)).Completed?
    ensures var r := ConvertBatchSingleCall(exe, files, outDir, timeoutSeconds, tool);
      r.successCount == 0 && r.failureCount == |files| && |r.errors| == 1
  {
  }

  /** On a completed run, the document at position `j` fails exactly when its PDF is missing, and then its message is reported. */
  lemma CompletedBatchReportsMissing(exe: string, files: seq<string>, outDir: string, timeoutSeconds: nat, tool: Tool, j: nat)
    requires j < |files| && tool(BatchInvocation(exe, files, outDir, timeoutSeconds)).Completed?
    requires !Converted(files[j], tool(BatchInvocation(exe, files, outDir, timeoutSeconds)).produced)
    ensures "Failed to convert: " + BaseName(files[j]) in ConvertBatchSingleCall(exe, files, outDir, timeoutSeconds, tool).errors
  {
    var produced := tool(BatchInvocation(exe, files, outDir, timeoutSeconds)).produced;
    ReconcileReportsMissing(Expectations(files), produced, j);
  }

  /** On a completed run, there is no failure exactly when every document's PDF exists. */
  lemma CompletedBatchSucceedsIffAllConverted(exe: string, files: seq<string>, outDir: string, timeoutSeconds: nat, tool: Tool)
    requires tool(BatchInvocation(exe, files, outDir, timeoutSeconds)).Completed?
    ensures var produced := tool(BatchInvocation(exe, files, outDir, timeoutSeconds)).produced;
      var r := ConvertBatchSingleCall(exe, files, outDir, timeoutSeconds, tool);
      r.failureCount == 0 <==> forall j :: 0 <= j < |files| ==> Converted(files[j], produced)
  {
    var produced := tool(BatchInvocation(exe, files, outDir, timeoutSeconds)).produced;
    var es := Expectations(files);
    ReconcileFailsIffMissing(es, produced);
    assert forall j :: 0 <= j < |files| ==> (es[j].pdf in produced <==> Converted(files[j], produced));
  }

  /** A single existing document converts alone exactly when a batch of that one document has a success. */
  lemma ConvertAgreesWithSingleCall(exe: string, docxPath: string, outDir: string, timeoutSeconds: nat, existing: set<string>, tool: Tool)
    requires docxPath in existing
    ensures Convert(exe, docxPath, outDir, timeoutSeconds, existing, tool).ok
        <==> ConvertBatchSingleCall(exe, [docxPath], outDir, timeoutSeconds, tool).successCount == 1
  {
    assert BatchInvocation(exe, [docxPath], outDir, timeoutSeconds) == Invocation(exe, ConvertArgs(outDir, [docxPath]), timeoutSeconds);
    assert Expectations([docxPath]) == [ExpectedOf(docxPath)];
    match tool(Invocation(exe, ConvertArgs(outDir, [docxPath]), timeoutSeconds))
    case Completed(_, _, _, produced) => ReconcileOne(ExpectedOf(docxPath), produced);
    case TimedOut =>
    case Raised(_) =>
  }

  /** Two documents expecting the same PDF (the same stem in different folders, say) are both counted as converted by that one file. */
  lemma SameStemCountedTwice(ea: Expected, eb: Expected, produced: set<string>)
    requires ea.pdf == eb.pdf && ea.pdf in produced
    ensures Reconcile([ea, eb], produced) == BatchResult(2, 0, [])
  {
    assert [ea, eb][..1] == [ea];
    ReconcileOne(ea, produced);
  }
}
