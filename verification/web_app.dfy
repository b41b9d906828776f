/**
 * The portable application's web routes, reduced to their decisions:
 * which uploaded file names are accepted, when an upload is complete, and
 * when a generation request is refused, stopped by validation, or run and
 * offered as a ZIP download.
 */
module WebApp {
  import opened Wrappers
  import opened Text
  import opened ReportGenerator

  /** `ext.lstrip('.')`: an allowed extension with its leading dots removed. */
  function StripLeadingDots(e: string): (r: string)
    ensures r == [] || r[0] != '.'
    ensures |r| <= |e| && r == e[|e| - |r|..]
    ensures forall i :: 0 <= i < |e| - |r| ==> e[i] == '.'
    decreases |e|
  {
    if e != [] && e[0] == '.' then StripLeadingDots(e[1..]) else e
  }

  /** The allowed extensions as they are compared: without leading dots. */
  function Normalised(allowed: seq<string>): (r: seq<string>)
    ensures |r| == |allowed|
    ensures forall i :: 0 <= i < |allowed| ==> r[i] == StripLeadingDots(allowed[i])
  {
    seq(|allowed|, i requires 0 <= i < |allowed| => StripLeadingDots(allowed[i]))
  }

  /** `filename.rsplit('.', 1)[1]`: the text after the last dot. */
  function LastPart(filename: string): (r: string)
    requires '.' in filename
    ensures '.' !in r
  {
    filename[LastIndexOf(filename, '.').value + 1..]
  }

  /** `allowed_file`: the name has a dot, and the text after the last one, lower-cased, is an allowed extension. */
  predicate AllowedFile(filename: string, allowed: seq<string>) {
    '.' in filename && Lower(LastPart(filename)) in Normalised(allowed)
  }

  /** A name without a dot is never accepted, whatever is allowed. */
  lemma NoDotRejected(filename: string, allowed: seq<string>)
    requires '.' !in filename
    ensures !AllowedFile(filename, allowed)
  {
  }

  /** The last dot of `stem.ext` is the one before `ext` when `ext` has no dot. */
  lemma LastPartOf(stem: string, ext: string)
    requires '.' !in ext
    ensures '.' in stem + "." + ext
    ensures LastPart(stem + "." + ext) == ext
  {
    var f := stem + "." + ext;
    assert f[|stem|] == '.';
    assert f[|stem| + 1..] == ext;
  }

  /** `stem.ext` is accepted exactly when `ext`, lower-cased, equals an allowed entry with its leading dots removed. */
  lemma AllowedFileIff(stem: string, ext: string, allowed: seq<string>)
    requires '.' !in ext
    ensures AllowedFile(stem + "." + ext, allowed) <==> exists i :: 0 <= i < |allowed| && Lower(ext) == StripLeadingDots(allowed[i])
  {
    LastPartOf(stem, ext);
    var n := Normalised(allowed);
    if Lower(ext) in n {
      var i :| 0 <= i < |n| && n[i] == Lower(ext);
      assert Lower(ext) == StripLeadingDots(allowed[i]);
    }
  }

  lemma NormalisedAppend(allowed: seq<string>, e: string)
    ensures Normalised(allowed + [e]) == Normalised(allowed) + [StripLeadingDots(e)]
  {
    var a := Normalised(allowed + [e]);
    var b := Normalised(allowed) + [StripLeadingDots(e)];
    forall i | 0 <= i < |a| ensures a[i] == b[i] {
      if i < |allowed| {
        assert (allowed + [e])[i] == allowed[i];
      }
    }
  }

  /** Writing an allowed extension with or without its dot makes no difference. */
  lemma DotOptional(filename: string, allowed: seq<string>, e: string)
    ensures AllowedFile(filename, allowed + ["." + e]) == AllowedFile(filename, allowed + [e])
  {
    assert ("." + e)[1..] == e;
    assert StripLeadingDots("." + e) == StripLeadingDots(e);
    NormalisedAppend(allowed, "." + e);
    NormalisedAppend(allowed, e);
  }

  /** The three upload slots, in the order their absence is reported. */
  datatype Upload = ExcelFile | WordTemplate | MappingJson

  function Label(u: Upload): string {
    match u
    case ExcelFile => "Excel file"
    case WordTemplate => "Word template"
    case MappingJson => "Mapping JSON"
  }

  function Order(u: Upload): nat {
    match u
    case ExcelFile => 0
    case WordTemplate => 1
    case MappingJson => 2
  }

  /** The extensions each slot accepts. */
  function UploadExtensions(u: Upload): seq<string> {
    match u
    case ExcelFile => [".xlsx", ".xls"]
    case WordTemplate => [".docx"]
    case MappingJson => [".json"]
  }

  /** The file names the upload form carried, `None` for a part that is absent. */
  datatype UploadForm = UploadForm(excel: Option<string>, template: Option<string>, mapping: Option<string>)

  function PartOf(u: Upload, form: UploadForm): Option<string> {
    match u
    case ExcelFile => form.excel
    case WordTemplate => form.template
    case MappingJson => form.mapping
  }

  /** A part is stored when it is present, has a non-empty file name, and that name is allowed for the slot. */
  predicate Accepted(u: Upload, form: UploadForm) {
    var part := PartOf(u, form);
    part.Some? && part.value != [] && AllowedFile(part.value, UploadExtensions(u))
  }

  /** Which slots were stored. */
  datatype Stored = Stored(excel: bool, template: bool, mapping: bool)

  function StoredOf(form: UploadForm): Stored {
    Stored(Accepted(ExcelFile, form), Accepted(WordTemplate, form), Accepted(MappingJson, form))
  }

  function IsStored(u: Upload, stored: Stored): bool {
    match u
    case ExcelFile => stored.excel
    case WordTemplate => stored.template
    case MappingJson => stored.mapping
  }

  function MissingIf(u: Upload, stored: Stored): seq<Upload> {
    if IsStored(u, stored) then [] else [u]
  }

  /** The slots not stored, in the fixed order Excel file, Word template, Mapping JSON. */
  function Missing(stored: Stored): (r: seq<Upload>)
    ensures forall u :: u in r <==> !IsStored(u, stored)
    ensures forall i, j :: 0 <= i < j < |r| ==> Order(r[i]) < Order(r[j])
  {
    MissingIf(ExcelFile, stored) + MissingIf(WordTemplate, stored) + MissingIf(MappingJson, stored)
  }

  /** Parts joined with a separator between consecutive parts, as `sep.join(parts)`. */
  function JoinWith(parts: seq<string>, sep: string): string
    decreases |parts|
  {
    if |parts| == 0 then []
    else if |parts| == 1 then parts[0]
    else parts[0] + sep + JoinWith(parts[1..], sep)
  }

  function Labels(us: seq<Upload>): (r: seq<string>)
    ensures |r| == |us| && forall i :: 0 <= i < |us| ==> r[i] == Label(us[i])
  {
    seq(|us|, i requires 0 <= i < |us| => Label(us[i]))
  }

  /** The outcome for a given set of stored slots: success, or the message naming every missing one. */
  function Report(stored: Stored): Result<(), string> {
    var missing := Missing(stored);
    if missing == [] then Ok(()) else Err("Missing files: " + JoinWith(Labels(missing), ", "))
  }

  /** `upload_files`' outcome: the three stored files, or the message naming every missing one. */
  function CheckUpload(form: UploadForm): Result<(), string> {
    Report(StoredOf(form))
  }

  /** An upload succeeds exactly when all three slots are stored. */
  lemma ReportOkIffAllStored(stored: Stored)
    ensures Report(stored).Ok? <==> stored.excel && stored.template && stored.mapping
  {
    var missing := Missing(stored);
    if missing != [] {
      assert missing[0] in missing;
    }
  }

  /** An upload succeeds exactly when all three parts are accepted. */
  lemma UploadIffAllAccepted(form: UploadForm)
    ensures CheckUpload(form).Ok? <==> Accepted(ExcelFile, form) && Accepted(WordTemplate, form) && Accepted(MappingJson, form)
  {
    ReportOkIffAllStored(StoredOf(form));
  }

  /** With only one slot missing, the message names just that slot. */
  lemma OneMissingNamed(stored: Stored, u: Upload)
    requires !IsStored(u, stored)
    requires forall v :: v != u ==> IsStored(v, stored)
    ensures Report(stored) == Err("Missing files: " + Label(u))
  {
    var missing := Missing(stored);
    assert missing == [u] by {
      assert u in missing;
      assert forall i :: 0 <= i < |missing| ==> missing[i] == u;
    }
  }

  /** With nothing stored, all three slots are named, in order. */
  lemma NothingStoredNamesAll()
    ensures Report(Stored(false, false, false))
         == Err("Missing files: " + (Label(ExcelFile) + ", " + (Label(WordTemplate) + ", " + Label(MappingJson))))
  {
    var missing := Missing(Stored(false, false, false));
    assert missing == [ExcelFile, WordTemplate, MappingJson];
    var labels := Labels(missing);
    assert labels == ["Excel file", "Word template", "Mapping JSON"];
    assert labels[1..][1..] == ["Mapping JSON"];
    assert JoinWith(labels[1..], ", ") == "Word template" + ", " + "Mapping JSON";
    assert JoinWith(labels, ", ") == "Excel file" + ", " + ("Word template" + ", " + "Mapping JSON");
  }

  // ---------------------------------------------------------------------
  // generate_reports

  /** The JSON body of a generation request; `None` for a key that is absent. */
  datatype GenerateRequest = GenerateRequest(
    sessionId: Option<string>,
    className: Option<string>,
    excelPath: Option<string>,
    templatePath: Option<string>,
    mappingPath: Option<string>)

  /** Python truthiness of an optional string: present and non-empty. */
  predicate Given(v: Option<string>) {
    v.Some? && v.value != []
  }

  /** `data.get('class_name', '').strip()`. */
  function ClassNameOf(req: GenerateRequest): string {
    Strip(if req.className.Some? then req.className.value else "")
  }

  predicate Complete(req: GenerateRequest) {
    Given(req.sessionId) && ClassNameOf(req) != [] && Given(req.excelPath) && Given(req.templatePath) && Given(req.mappingPath)
  }

  const MissingParameters: string := "Missing required parameters"
  const ValidationFailedMessage: string := "Validation failed"

  /** The route's answer: refused, stopped by validation, or the run's result with a download link when there is something to zip. */
  datatype Response =
    | Refused(error: string)
    | ValidationFailed(error: string, errors: seq<string>)
    | Generated(result: GenerationResult, downloadUrl: Option<string>)

  /**
   * What the route needs from the server side: the files on disk, the
   * mapping's content, and how a run goes. `existing` and `mappingContent`
   * describe the same three uploaded files that `env` loads. The route's
   * `validate_inputs` and the data processor's own `validate()` are
   * different checks, so a request that passes the first can still stop at
   * the second; how `env` loads those files is an oracle of its own.
   */
  datatype Server = Server(outputRoot: string, existing: set<string>, mappingContent: MappingContent, env: Environment)

  function OutputDir(root: string, session: string, className: string): string {
    root + "/" + session + "/" + className + "_report_cards"
  }

  function DownloadUrl(session: string, className: string): string {
    "/download/" + session + "/" + className + "_report_cards.zip"
  }

  /** `generate_reports`: guard the parameters, validate the inputs, run, and zip when anything was generated. */
  function GenerateReports(req: GenerateRequest, server: Server): Response {
    if !Complete(req) then Refused(MissingParameters)
    else
      var session := req.sessionId.value;
      var className := ClassNameOf(req);
      var errors := ValidateInputs(req.excelPath.value, req.templatePath.value, req.mappingPath.value,
                                   server.existing, server.mappingContent, DefaultExtensions);
      if errors != [] then ValidationFailed(ValidationFailedMessage, errors)
      else
        var result := Generate(server.env, className, OutputDir(server.outputRoot, session, className));
        Generated(result, if result.generated > 0 then Some(DownloadUrl(session, className)) else None)
  }

  /** A request is refused exactly when a parameter is missing or empty, the class name counting after stripping. */
  lemma RefusedIffIncomplete(req: GenerateRequest, server: Server)
    ensures GenerateReports(req, server).Refused? <==> !Complete(req)
  {
  }

  /** A complete request whose inputs fail validation never starts a run, and passes the validation messages on unchanged. */
  lemma ValidationStopsRun(req: GenerateRequest, server: Server)
    requires Complete(req)
    requires ValidateInputs(req.excelPath.value, req.templatePath.value, req.mappingPath.value, server.existing, server.mappingContent, DefaultExtensions) != []
    ensures GenerateReports(req, server) == ValidationFailed(ValidationFailedMessage,
      ValidateInputs(req.excelPath.value, req.templatePath.value, req.mappingPath.value, server.existing, server.mappingContent, DefaultExtensions))
  {
  }

  /** A download is offered exactly when the run generated at least one report. */
  lemma ZipIffGenerated(req: GenerateRequest, server: Server)
    requires GenerateReports(req, server).Generated?
    ensures var r := GenerateReports(req, server);
      r.downloadUrl.Some? <==> r.result.generated > 0
  {
  }

  /** A run that stops at one of its own early returns is reported as it is, with no download. */
  lemma EarlyExitNoZip(req: GenerateRequest, server: Server)
    requires GenerateReports(req, server).Generated?
    requires !ReachesFill(server.env)
    ensures GenerateReports(req, server).downloadUrl.None?
  {
    var className := ClassNameOf(req);
    EarlyExitFails(server.env, className, OutputDir(server.outputRoot, req.sessionId.value, className));
  }
}
