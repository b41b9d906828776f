/**
 * The portable application's orchestrator (`ReportGenerator`): checking
 * the three input files, then one generation run — load, validate, check
 * the converter, fill one document per student, convert them all in one
 * batch, and add up the outcome.
 */
module ReportGenerator {
  import opened Wrappers
  import opened Text
  import opened Cells
  import opened Filenames
  import opened RecordExtraction
  import opened PortableRecords
  import opened PdfConverter

  /** The result dictionary of a run. */
  datatype GenerationResult = GenerationResult(
    success: bool,
    totalStudents: nat,
    generated: nat,
    failed: nat,
    errors: seq<string>,
    outputDir: string)

  /** The converter's per-document time limit in the default settings. */
  const TimeoutSeconds: nat := 60

  const UnavailableMessage: string := "LibreOffice not found or not working"
  const NoStudentsMessage: string := "No student data found in Excel file"

  /** The sheet and the column mapping, as the data processor loads them. */
  datatype Workbook = Workbook(sheet: seq<SheetRow>, mapping: Mapping)

  /** Everything a run learns from outside: files, the converter program, and how each step went. */
  datatype Environment = Environment(
    workbook: Result<Workbook, string>,  // loading the sheet and the mapping, or the message of what it raised
    validationErrors: seq<string>,       // the data processor's own check of sheet against mapping
    templateError: Option<string>,       // opening the template raised
    found: Option<string>,               // the platform search for the converter program
    tool: Tool,                          // how the converter responds
    tempDir: string,                     // the fresh directory for the filled documents
    extractError: string,                // the message when building a student's record raises
    fillError: nat -> Option<string>)    // filling student `i`'s document raised

  /** The result as first built: not a success, nothing counted. */
  function Initial(outputDir: string): GenerationResult {
    GenerationResult(false, 0, 0, 0, [], outputDir)
  }

  /** An early return: the initial result carrying the given errors. */
  function EarlyExit(outputDir: string, errors: seq<string>): GenerationResult {
    Initial(outputDir).(errors := errors)
  }

  function Unexpected(message: string): string {
    "Unexpected error: " + message
  }

  /** The name a student's document and messages use: the `name` field, or `Student_<i>` counting from 1. */
  function StudentName(record: Record, i: nat): string {
    if "name" in record then PyStr(record["name"]) else "Student_" + IntToString(i + 1)
  }

  /** Where student `i`'s filled document goes: the sanitised name in the temporary directory. */
  function DocxPath(tempDir: string, name: string): string {
    tempDir + "/" + Sanitize(name) + ".docx"
  }

  /** What filling one student's document came to. */
  datatype FillStep =
    | Filled(path: string)     // the document was written here
    | FillFailed(line: string) // filling raised; the line for the error list
    | Aborted                  // building the record raised, which ends the whole run

  /**
   * Student `i`'s step: the run ends exactly when the record cannot be
   * built; otherwise the fill fails exactly when it raises, and the error
   * line names the student, and a filled document sits in the temporary
   * directory under the student's sanitised name.
   */
  function StudentStep(env: Environment, row: SheetRow, mapping: Mapping, className: string, i: nat): (s: FillStep)
    ensures s.Aborted? <==> ExtractStudent(row, mapping, className).None?
    ensures s.FillFailed? <==> ExtractStudent(row, mapping, className).Some? && env.fillError(i).Some?
    ensures s.FillFailed? ==>
      s.line == StudentName(ExtractStudent(row, mapping, className).value, i) + ": " + env.fillError(i).value
    ensures s.Filled? ==>
      s.path == env.tempDir + "/" + Sanitize(StudentName(ExtractStudent(row, mapping, className).value, i)) + ".docx"
  {
    match ExtractStudent(row, mapping, className)
    case None => Aborted
    case Some(record) =>
      var name := StudentName(record, i);
      match env.fillError(i)
      case None => Filled(DocxPath(env.tempDir, name))
      case Some(e) => FillFailed(name + ": " + e)
  }

  /** A filled document is looked for after the batch as `<sanitised name>.pdf`, and a failure would show it as `<sanitised name>.docx`. */
  lemma FilledDocumentExpectsItsPdf(tempDir: string, name: string)
    ensures BaseName(DocxPath(tempDir, name)) == Sanitize(name) + ".docx"
    ensures PdfName(DocxPath(tempDir, name)) == Sanitize(name) + ".pdf"
  {
    var safe := Sanitize(name);
    var file := safe + ".docx";
    calc {
      BaseName(DocxPath(tempDir, name));
    == { assert DocxPath(tempDir, name) == tempDir + "/" + file; }
      BaseName(tempDir + "/" + file);
    == { NoSlashInSafeDocx(name); BaseNameOfJoined(tempDir, file); }
      file;
    }
    StemOfExtended(safe, ".docx");
  }

  /** A sanitised name with ".docx" appended has no slash. */
  lemma NoSlashInSafeDocx(name: string)
    ensures '/' !in Sanitize(name) + ".docx"
  {
    SanitizeHasNoReserved(name);
    var file := Sanitize(name) + ".docx";
    forall k | 0 <= k < |file| ensures file[k] != '/' {
      if k < |Sanitize(name)| {
        assert !IsReserved(Sanitize(name)[k]);
      }
    }
  }

  function FillSteps(env: Environment, rows: seq<SheetRow>, mapping: Mapping, className: string): (r: seq<FillStep>)
    ensures |r| == |rows|
    ensures forall i :: 0 <= i < |rows| ==> r[i] == StudentStep(env, rows[i], mapping, className, i)
  {
    seq(|rows|, i requires 0 <= i < |rows| => StudentStep(env, rows[i], mapping, className, i))
  }

  /** The documents filled, the failures counted and their lines, and where the run was cut short, if it was. */
  datatype FillOutcome = FillOutcome(docs: seq<string>, failed: nat, errors: seq<string>, abortedAt: Option<nat>)

  /**
   * The fill phase: failures are counted and the loop goes on; the first
   * record that cannot be built stops everything, keeping what was counted.
   */
  function FillAll(steps: seq<FillStep>): (r: FillOutcome)
    ensures |r.errors| == r.failed
    ensures r.abortedAt.None? <==> forall k :: 0 <= k < |steps| ==> !steps[k].Aborted?
    ensures r.abortedAt.None? ==> |r.docs| + r.failed == |steps|
    ensures r.abortedAt.Some? ==>
      && r.abortedAt.value < |steps|
      && steps[r.abortedAt.value].Aborted?
      && (forall k :: 0 <= k < r.abortedAt.value ==> !steps[k].Aborted?)
      && |r.docs| + r.failed == r.abortedAt.value
    decreases |steps|
  {
    if steps == [] then FillOutcome([], 0, [], None)
    else
      var last := |steps| - 1;
      assert forall k :: 0 <= k < last ==> steps[..last][k] == steps[k];
      Record(FillAll(steps[..last]), steps[last], last)
  }

  /** Student `i`'s step added to what came before; nothing is added once the run has been cut short. */
  function Record(prior: FillOutcome, s: FillStep, i: nat): FillOutcome {
    if prior.abortedAt.Some? then prior
    else
      match s
      case Filled(p) => prior.(docs := prior.docs + [p])
      case FillFailed(line) => prior.(failed := prior.failed + 1, errors := prior.errors + [line])
      case Aborted => prior.(abortedAt := Some(i))
  }

  lemma RecordAfterConcat(x: FillOutcome, y: FillOutcome, s: FillStep, i: nat, j: nat)
    requires x.abortedAt.None? && y.abortedAt.None? && !s.Aborted?
    ensures Record(Concat(x, y), s, i) == Concat(x, Record(y, s, j))
  {
    match s
    case Filled(p) =>
      assert x.docs + (y.docs + [p]) == (x.docs + y.docs) + [p];
    case FillFailed(line) =>
      assert x.errors + (y.errors + [line]) == (x.errors + y.errors) + [line];
  }

  /** Outcomes of two consecutive stretches of students that both ran to completion, put together. */
  function Concat(a: FillOutcome, b: FillOutcome): FillOutcome {
    FillOutcome(a.docs + b.docs, a.failed + b.failed, a.errors + b.errors, None)
  }

  /** The fill phase keeps the students' order: documents and error lines come out in input order. */
  lemma {:induction false} FillAllAppend(a: seq<FillStep>, b: seq<FillStep>)
    requires FillAll(a).abortedAt.None? && FillAll(b).abortedAt.None?
    ensures FillAll(a + b) == Concat(FillAll(a), FillAll(b))
    decreases |b|
  {
    if b == [] {
      assert a + b == a;
    } else {
      var b', last := b[..|b| - 1], b[|b| - 1];
      assert FillAll(b').abortedAt.None? && !last.Aborted? by {
        assert forall k :: 0 <= k < |b'| ==> b'[k] == b[k];
      }
      var ab := a + b;
      calc {
        FillAll(ab);
        { FillAllSnoc(ab); DropLast(a, b); }
        Record(FillAll(a + b'), last, |ab| - 1);
        { FillAllAppend(a, b'); }
        Record(Concat(FillAll(a), FillAll(b')), last, |ab| - 1);
        { RecordAfterConcat(FillAll(a), FillAll(b'), last, |ab| - 1, |b| - 1); }
        Concat(FillAll(a), Record(FillAll(b'), last, |b| - 1));
        Concat(FillAll(a), FillAll(b));
      }
    }
  }

  /** The last student's step is recorded after all the others. */
  lemma FillAllSnoc(steps: seq<FillStep>)
    requires steps != []
    ensures FillAll(steps) == Record(FillAll(steps[..|steps| - 1]), steps[|steps| - 1], |steps| - 1)
  {
  }

  /** Dropping the last element of a concatenation drops it from the second part. */
  lemma DropLast<T>(a: seq<T>, b: seq<T>)
    requires b != []
    ensures (a + b)[..|a + b| - 1] == a + b[..|b| - 1] && (a + b)[|a + b| - 1] == b[|b| - 1]
  {
  }

  /** One student on their own. */
  lemma FillOne(s: FillStep)
    ensures FillAll([s]) == match s
      case Filled(p) => FillOutcome([p], 0, [], None)
      case FillFailed(line) => FillOutcome([], 1, [line], None)
      case Aborted => FillOutcome([], 0, [], Some(0))
  {
    assert [s][..0] == [];
  }

  /** The result once the fill phase has run to the end: one batch for the filled documents, if any, and the totals merged. */
  function Finish(exe: string, tool: Tool, total: nat, fill: FillOutcome, outputDir: string): (r: GenerationResult)
    requires fill.abortedAt.None?
    ensures r.totalStudents == total
  {
    if fill.docs == [] then
      GenerationResult(fill.failed == 0, total, 0, fill.failed, fill.errors, outputDir)
    else
      var batch := ConvertBatchSingleCall(exe, fill.docs, outputDir, TimeoutSeconds, tool);
      var failed := fill.failed + batch.failureCount;
      GenerationResult(failed == 0, total, batch.successCount, failed, fill.errors + batch.errors, outputDir)
  }

  /** `generate`: one run, with every early return of the source. */
  function Generate(env: Environment, className: string, outputDir: string): (r: GenerationResult)
    ensures r.outputDir == outputDir
  {
    match env.workbook
    case Err(e) => EarlyExit(outputDir, [Unexpected(e)])
    case Ok(book) =>
      if env.validationErrors != [] then EarlyExit(outputDir, env.validationErrors)
      else if env.templateError.Some? then EarlyExit(outputDir, [Unexpected(env.templateError.value)])
      else
        match Locate(None, env.found)
        case Err(e) => EarlyExit(outputDir, [Unexpected(e)])
        case Ok(exe) =>
          if !IsAvailable(Some(exe), env.tool) then EarlyExit(outputDir, [UnavailableMessage])
          else
            var rows := StudentRows(book.sheet, DefaultHeaderRows);
            if |rows| == 0 then EarlyExit(outputDir, [NoStudentsMessage])
            else
              var fill := FillAll(FillSteps(env, rows, book.mapping, className));
              if fill.abortedAt.Some? then
                GenerationResult(false, |rows|, 0, fill.failed, fill.errors + [Unexpected(env.extractError)], outputDir)
              else Finish(exe, env.tool, |rows|, fill, outputDir)
  }

  /** The run gets past every early return: loaded, validated, template read, converter found and working, students present. */
  predicate ReachesFill(env: Environment) {
    && env.workbook.Ok?
    && env.validationErrors == []
    && env.templateError.None?
    && Locate(None, env.found).Ok?
    && IsAvailable(Some(Locate(None, env.found).value), env.tool)
    && |StudentRows(env.workbook.value.sheet, DefaultHeaderRows)| > 0
  }

  function FillOf(env: Environment, className: string): FillOutcome
    requires env.workbook.Ok?
  {
    var book := env.workbook.value;
    FillAll(FillSteps(env, StudentRows(book.sheet, DefaultHeaderRows), book.mapping, className))
  }

  /** The run goes through both phases: it gets to the fill and no record fails to build. */
  predicate Completes(env: Environment, className: string) {
    ReachesFill(env) && FillOf(env, className).abortedAt.None?
  }

  /** Validation errors from the data processor come back as the only errors, with nothing counted. */
  lemma ValidationErrorsReturned(env: Environment, className: string, outputDir: string)
    requires env.workbook.Ok? && env.validationErrors != []
    ensures Generate(env, className, outputDir) == GenerationResult(false, 0, 0, 0, env.validationErrors, outputDir)
  {
  }

  /** A converter that does not answer its version query gives exactly one error, and no success. */
  lemma UnavailableConverter(env: Environment, className: string, outputDir: string)
    requires env.workbook.Ok? && env.validationErrors == [] && env.templateError.None?
    requires Locate(None, env.found).Ok? && !IsAvailable(Some(Locate(None, env.found).value), env.tool)
    ensures Generate(env, className, outputDir) == GenerationResult(false, 0, 0, 0, [UnavailableMessage], outputDir)
  {
  }

  /** With no converter program found at all, the constructor's message ends the run as an unexpected error. */
  lemma MissingConverter(env: Environment, className: string, outputDir: string)
    requires env.workbook.Ok? && env.validationErrors == [] && env.templateError.None?
    requires env.found.None?
    ensures Generate(env, className, outputDir) == GenerationResult(false, 0, 0, 0, [Unexpected(NotFoundMessage)], outputDir)
  {
  }

  /** A sheet with no rows after the header gives one error and a total of zero. */
  lemma NoStudents(env: Environment, className: string, outputDir: string)
    requires env.workbook.Ok? && env.validationErrors == [] && env.templateError.None?
    requires Locate(None, env.found).Ok? && IsAvailable(Some(Locate(None, env.found).value), env.tool)
    requires |StudentRows(env.workbook.value.sheet, DefaultHeaderRows)| == 0
    ensures Generate(env, className, outputDir) == GenerationResult(false, 0, 0, 0, [NoStudentsMessage], outputDir)
  {
  }

  /** Every early return is a failure with nothing generated. */
  lemma EarlyExitFails(env: Environment, className: string, outputDir: string)
    requires !ReachesFill(env)
    ensures var r := Generate(env, className, outputDir);
      !r.success && r.generated == 0 && r.failed == 0 && r.totalStudents == 0 && |r.errors| >= 1
  {
  }

  /** A run through both phases accounts for every student: generated plus failed is the total. */
  lemma CountsConserved(env: Environment, className: string, outputDir: string)
    requires Completes(env, className)
    ensures var r := Generate(env, className, outputDir);
      r.generated + r.failed == r.totalStudents == |StudentRows(env.workbook.value.sheet, DefaultHeaderRows)|
  {
    GenerateCompletes(env, className, outputDir);
  }

  /** A run through both phases ends in `Finish` with the fill outcome and the student count. */
  lemma GenerateCompletes(env: Environment, className: string, outputDir: string)
    requires Completes(env, className)
    ensures Generate(env, className, outputDir)
         == Finish(Locate(None, env.found).value, env.tool, |StudentRows(env.workbook.value.sheet, DefaultHeaderRows)|, FillOf(env, className), outputDir)
  {
  }

  /** The last step on its own: with every student accounted for by the fill, success means no failure, no error and every student generated. */
  lemma FinishSuccess(exe: string, tool: Tool, total: nat, fill: FillOutcome, outputDir: string)
    requires fill.abortedAt.None? && |fill.docs| + fill.failed == total && |fill.errors| == fill.failed
    ensures var r := Finish(exe, tool, total, fill, outputDir);
      && r.generated + r.failed == total
      && (r.success <==> r.failed == 0)
      && (r.success ==> r.errors == [] && r.generated == total)
  {
    if fill.docs != [] {
      var batch := ConvertBatchSingleCall(exe, fill.docs, outputDir, TimeoutSeconds, tool);
      var run := tool(BatchInvocation(exe, fill.docs, outputDir, TimeoutSeconds));
      if run.Completed? {
        assert |batch.errors| == batch.failureCount;
      }
    }
  }

  /** A run through both phases succeeds exactly when nothing failed, and then there are no errors and every student was generated. */
  lemma SuccessIffNoFailure(env: Environment, className: string, outputDir: string)
    requires Completes(env, className)
    ensures var r := Generate(env, className, outputDir);
      && (r.success <==> r.failed == 0)
      && (r.success ==> r.errors == [] && r.generated == r.totalStudents)
  {
    GenerateCompletes(env, className, outputDir);
    FinishSuccess(Locate(None, env.found).value, env.tool, |StudentRows(env.workbook.value.sheet, DefaultHeaderRows)|, FillOf(env, className), outputDir);
  }

  /** The error list of a completed run: the fill failures in student order, then the batch's errors. */
  lemma ErrorsInPhaseOrder(env: Environment, className: string, outputDir: string)
    requires Completes(env, className)
    ensures var fill := FillOf(env, className);
      var exe := Locate(None, env.found).value;
      Generate(env, className, outputDir).errors ==
        fill.errors + (if fill.docs == [] then [] else ConvertBatchSingleCall(exe, fill.docs, outputDir, TimeoutSeconds, env.tool).errors)
  {
    GenerateCompletes(env, className, outputDir);
  }

  /** A student whose document cannot be filled costs one failure and one line naming them, and the loop goes on. */
  lemma FillFailureCounted(steps: seq<FillStep>, line: string)
    requires FillAll(steps).abortedAt.None?
    ensures var before := FillAll(steps);
      FillAll(steps + [FillFailed(line)]) == before.(failed := before.failed + 1, errors := before.errors + [line])
  {
    var s := steps + [FillFailed(line)];
    assert s[..|s| - 1] == steps;
  }

  /** A student without a `name` field is called `Student_<i>`, counting from 1. */
  lemma DefaultStudentName(record: Record, i: nat)
    requires "name" !in record
    ensures StudentName(record, i) == "Student_" + IntToString(i + 1)
  {
  }

  /** A record that cannot be built stops the run at once: the total is kept, the error is added last, and no batch runs. */
  lemma RecordFailureAborts(env: Environment, className: string, outputDir: string)
    requires ReachesFill(env) && FillOf(env, className).abortedAt.Some?
    ensures var r := Generate(env, className, outputDir);
      var fill := FillOf(env, className);
      && !r.success && r.generated == 0 && r.failed == fill.failed
      && r.errors == fill.errors + [Unexpected(env.extractError)]
      && r.totalStudents == |StudentRows(env.workbook.value.sheet, DefaultHeaderRows)|
  {
  }

  // ---------------------------------------------------------------------
  // validate_inputs

  /** Which of the three input files a check is about. */
  datatype InputKind = ExcelInput | TemplateInput | MappingInput

  /** What decoding the mapping file gave. */
  datatype MappingContent = NotAnObject | EmptyObject | NonEmptyObject | InvalidJson(message: string)

  /** The allowed extensions per input kind, lower-case with the dot. */
  datatype Extensions = Extensions(excel: seq<string>, template: seq<string>, mapping: seq<string>)

  const DefaultExtensions: Extensions := Extensions([".xlsx", ".xls"], [".docx"], [".json"])

  /** One problem `validate_inputs` reports. */
  datatype Violation =
    | Missing(kind: InputKind, path: string)
    | BadExtension(kind: InputKind, ext: string)
    | MappingNotObject
    | MappingEmpty
    | MappingInvalid(message: string)

  function KindLabel(kind: InputKind): string {
    match kind
    case ExcelInput => "Excel"
    case TemplateInput => "Template"
    case MappingInput => "Mapping"
  }

  function Message(v: Violation): string {
    match v
    case Missing(kind, path) => KindLabel(kind) + " file not found: " + path
    case BadExtension(ExcelInput, ext) => "Invalid Excel file extension: " + ext
    case BadExtension(TemplateInput, ext) => "Invalid template file extension: " + ext
    case BadExtension(MappingInput, ext) => "Invalid mapping file extension: " + ext
    case MappingNotObject => "Mapping file must contain a JSON object"
    case MappingEmpty => "Mapping file is empty"
    case MappingInvalid(m) => "Invalid JSON in mapping file: " + m
  }

  /** The position of a kind of check in the fixed order of checks. */
  function Rank(v: Violation): nat {
    match v
    case Missing(ExcelInput, _) => 0
    case Missing(TemplateInput, _) => 1
    case Missing(MappingInput, _) => 2
    case BadExtension(ExcelInput, _) => 3
    case BadExtension(TemplateInput, _) => 4
    case BadExtension(MappingInput, _) => 5
    case MappingNotObject => 6
    case MappingEmpty => 6
    case MappingInvalid(_) => 6
  }

  /** `Path(p).suffix.lower()`. */
  function ExtensionOf(path: string): string {
    Lower(Suffix(BaseName(path)))
  }

  function AllowedFor(kind: InputKind, allowed: Extensions): seq<string> {
    match kind
    case ExcelInput => allowed.excel
    case TemplateInput => allowed.template
    case MappingInput => allowed.mapping
  }

  /** The three inputs — or anything else kept per input, such as their extensions. */
  datatype Inputs = Inputs(excel: string, template: string, mapping: string)

  function Of(kind: InputKind, inputs: Inputs): string {
    match kind
    case ExcelInput => inputs.excel
    case TemplateInput => inputs.template
    case MappingInput => inputs.mapping
  }

  function ExtensionsOf(paths: Inputs): Inputs {
    Inputs(ExtensionOf(paths.excel), ExtensionOf(paths.template), ExtensionOf(paths.mapping))
  }

  function ExistenceCheck(kind: InputKind, paths: Inputs, existing: set<string>): Option<Violation> {
    if Of(kind, paths) in existing then None else Some(Missing(kind, Of(kind, paths)))
  }

  function ExtensionCheck(kind: InputKind, exts: Inputs, allowed: Extensions): Option<Violation> {
    if Of(kind, exts) in AllowedFor(kind, allowed) then None else Some(BadExtension(kind, Of(kind, exts)))
  }

  /** The mapping's content is looked at only when the file exists. */
  function ContentCheck(mappingPath: string, existing: set<string>, content: MappingContent): Option<Violation> {
    if mappingPath !in existing then None
    else
      match content
      case NotAnObject => Some(MappingNotObject)
      case EmptyObject => Some(MappingEmpty)
      case NonEmptyObject => None
      case InvalidJson(m) => Some(MappingInvalid(m))
  }

  /** The seven checks in the order they run, given the paths and their extensions; check `i` has rank `i`. */
  function Checks(paths: Inputs, exts: Inputs, existing: set<string>, content: MappingContent, allowed: Extensions): seq<Option<Violation>> {
    [ ExistenceCheck(ExcelInput, paths, existing),
      ExistenceCheck(TemplateInput, paths, existing),
      ExistenceCheck(MappingInput, paths, existing),
      ExtensionCheck(ExcelInput, exts, allowed),
      ExtensionCheck(TemplateInput, exts, allowed),
      ExtensionCheck(MappingInput, exts, allowed),
      ContentCheck(paths.mapping, existing, content) ]
  }

  /** The problems the checks found, in check order. */
  function Found(checks: seq<Option<Violation>>): (r: seq<Violation>)
    ensures forall v :: v in r <==> Some(v) in checks
    decreases |checks|
  {
    if checks == [] then []
    else
      var prior := Found(checks[..|checks| - 1]);
      assert checks == checks[..|checks| - 1] + [checks[|checks| - 1]];
      match checks[|checks| - 1]
      case None => prior
      case Some(v) => prior + [v]
  }

  /** Found problems keep the order of the checks that found them. */
  lemma {:induction false} FoundInCheckOrder(checks: seq<Option<Violation>>)
    requires forall i :: 0 <= i < |checks| && checks[i].Some? ==> Rank(checks[i].value) == i
    ensures forall v :: v in Found(checks) ==> Rank(v) < |checks|
    ensures forall i, j :: 0 <= i < j < |Found(checks)| ==> Rank(Found(checks)[i]) < Rank(Found(checks)[j])
    decreases |checks|
  {
    if checks != [] {
      var n := |checks| - 1;
      var prefix := checks[..n];
      assert forall i :: 0 <= i < n ==> prefix[i] == checks[i];
      FoundInCheckOrder(prefix);
      forall v | v in Found(checks) ensures Rank(v) < |checks| {
        assert Some(v) in checks;
        var i :| 0 <= i < |checks| && checks[i] == Some(v);
      }
    }
  }

  /** Every problem with the inputs, in the fixed order of the checks: none stops the others. */
  function Violations(paths: Inputs, exts: Inputs, existing: set<string>, content: MappingContent, allowed: Extensions): (r: seq<Violation>)
    ensures forall i, j :: 0 <= i < j < |r| ==> Rank(r[i]) < Rank(r[j])
    ensures forall v :: v in r <==> Some(v) in Checks(paths, exts, existing, content, allowed)
  {
    var checks := Checks(paths, exts, existing, content, allowed);
    FoundInCheckOrder(checks);
    Found(checks)
  }

  /** The message of each problem, in order. */
  function Messages(vs: seq<Violation>): (r: seq<string>)
    ensures |r| == |vs| && forall i :: 0 <= i < |r| ==> r[i] == Message(vs[i])
  {
    seq(|vs|, i requires 0 <= i < |vs| => Message(vs[i]))
  }

  /** `validate_inputs`: the message of every problem, in order; a path's extension is its lower-cased suffix. */
  function ValidateInputs(excel: string, template: string, mapping: string, existing: set<string>, content: MappingContent, allowed: Extensions): seq<string> {
    var paths := Inputs(excel, template, mapping);
    Messages(Violations(paths, ExtensionsOf(paths), existing, content, allowed))
  }

  /** No problem is found exactly when all three files exist, all three extensions are allowed, and the mapping is a non-empty object. */
  lemma NoViolationsIff(paths: Inputs, exts: Inputs, existing: set<string>, content: MappingContent, allowed: Extensions)
    ensures Violations(paths, exts, existing, content, allowed) == [] <==>
      && paths.excel in existing && paths.template in existing && paths.mapping in existing
      && exts.excel in allowed.excel && exts.template in allowed.template && exts.mapping in allowed.mapping
      && content == NonEmptyObject
  {
    var checks := Checks(paths, exts, existing, content, allowed);
    var vs := Violations(paths, exts, existing, content, allowed);
    if vs != [] {
      assert Some(vs[0]) in checks;
    } else {
      assert forall i :: 0 <= i < |checks| ==> checks[i].None?;
    }
  }

  /** `validate_inputs` returns no errors exactly when every check passes. */
  lemma ValidIff(excel: string, template: string, mapping: string, existing: set<string>, content: MappingContent, allowed: Extensions)
    ensures ValidateInputs(excel, template, mapping, existing, content, allowed) == [] <==>
      && excel in existing && template in existing && mapping in existing
      && ExtensionOf(excel) in allowed.excel
      && ExtensionOf(template) in allowed.template
      && ExtensionOf(mapping) in allowed.mapping
      && content == NonEmptyObject
  {
    var paths := Inputs(excel, template, mapping);
    NoViolationsIff(paths, ExtensionsOf(paths), existing, content, allowed);
  }

  /** A missing file is reported whatever the other checks find. */
  lemma MissingAlwaysReported(kind: InputKind, paths: Inputs, exts: Inputs, existing: set<string>, content: MappingContent, allowed: Extensions)
    ensures Missing(kind, Of(kind, paths)) in Violations(paths, exts, existing, content, allowed) <==> Of(kind, paths) !in existing
  {
    var checks := Checks(paths, exts, existing, content, allowed);
    var path := Of(kind, paths);
    var i := match kind case ExcelInput => 0 case TemplateInput => 1 case MappingInput => 2;
    if Some(Missing(kind, path)) in checks {
      var j :| 0 <= j < |checks| && checks[j] == Some(Missing(kind, path));
      assert j == i;
    }
    if path !in existing {
      assert checks[i] == Some(Missing(kind, path));
    }
  }

  /** A disallowed extension is reported whatever the other checks find. */
  lemma BadExtensionAlwaysReported(kind: InputKind, paths: Inputs, exts: Inputs, existing: set<string>, content: MappingContent, allowed: Extensions)
    ensures BadExtension(kind, Of(kind, exts)) in Violations(paths, exts, existing, content, allowed)
      <==> Of(kind, exts) !in AllowedFor(kind, allowed)
  {
    var checks := Checks(paths, exts, existing, content, allowed);
    var ext := Of(kind, exts);
    var i := match kind case ExcelInput => 3 case TemplateInput => 4 case MappingInput => 5;
    if Some(BadExtension(kind, ext)) in checks {
      var j :| 0 <= j < |checks| && checks[j] == Some(BadExtension(kind, ext));
      assert j == i;
    }
    if ext !in AllowedFor(kind, allowed) {
      assert checks[i] == Some(BadExtension(kind, ext));
    }
  }

  /** A missing mapping file is reported, and its content is not looked at: every problem is a missing file or a bad extension. */
  lemma MissingMappingNotRead(paths: Inputs, exts: Inputs, existing: set<string>, content: MappingContent, allowed: Extensions)
    requires paths.mapping !in existing
    ensures forall v :: v in Violations(paths, exts, existing, content, allowed) ==> v.Missing? || v.BadExtension?
  {
    var checks := Checks(paths, exts, existing, content, allowed);
    assert checks[6].None?;
    assert forall j :: 0 <= j < 6 && checks[j].Some? ==> checks[j].value.Missing? || checks[j].value.BadExtension?;
  }
}
