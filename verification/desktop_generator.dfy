/**
 * The desktop generator's row loop (`ReportCardGenerator.generate_report_cards`):
 * rows are turned into records in order, each record fills one Word document,
 * and the loop stops at the first record whose name is the null placeholder.
 * Rendering and saving are outside the model; an oracle says per row how the
 * save went.
 */
module DesktopGenerator {
  import opened Wrappers
  import opened Cells
  import opened RecordExtraction

  /** How filling and saving one document went. */
  datatype DocOutcome =
    | Saved               // rendered and saved under the student's name
    | RenderFailed        // rendering or saving raised; the handler saves the template as "dummy.docx"
    | TemplateUnreadable  // opening the template raised; the handler itself then fails

  const DummyDocument: string := "dummy.docx"

  /** What one row does to the loop: write a file, stop it, or end it with an exception. */
  datatype Step = Write(file: string) | Stop | Crash

  /** `_create_word_document`'s file name: the text of the name value followed by ".docx". */
  function DocumentName(name: Cell): string {
    PyStr(name) + ".docx"
  }

  /**
   * One iteration: a record that cannot be built, or has no `name`, makes
   * the subscript raise; a name equal to "---" breaks the loop; otherwise a
   * document is written.
   */
  function RowStep(row: Row, mapping: Mapping, className: string, outcome: DocOutcome): (s: Step)
    ensures var r := Extract(RowLookup(row), mapping, className, DesktopPolicy);
      s == Stop <==> r.Some? && "name" in mapping && r.value["name"] == Str("---")
    ensures var r := Extract(RowLookup(row), mapping, className, DesktopPolicy);
      s == Crash <==> r.None? || "name" !in mapping || (r.value["name"] != Str("---") && outcome == TemplateUnreadable)
    ensures s.Write? ==> outcome != TemplateUnreadable
    ensures s.Write? && outcome == RenderFailed ==> s.file == DummyDocument
    ensures s.Write? && outcome == Saved ==>
      s.file == DocumentName(Extract(RowLookup(row), mapping, className, DesktopPolicy).value["name"])
  {
    match Extract(RowLookup(row), mapping, className, DesktopPolicy)
    case None => Crash
    case Some(record) =>
      if "name" !in record then Crash
      else if record["name"] == Str("---") then Stop
      else
        match outcome
        case Saved => Write(DocumentName(record["name"]))
        case RenderFailed => Write(DummyDocument)
        case TemplateUnreadable => Crash
  }

  /**
   * The loop stops at a row exactly when its record can be built and its
   * name cell is null-looking (None, NaN, "nan", "NA", …) or the text "---"
   * itself: an empty name is no sentinel, a missing one is.
   */
  lemma StopsAtPlaceholderName(row: Row, mapping: Mapping, className: string, outcome: DocOutcome)
    requires Extract(RowLookup(row), mapping, className, DesktopPolicy).Some? && "name" in mapping
    ensures mapping["name"] in row
    ensures var c := row[mapping["name"]];
      RowStep(row, mapping, className, outcome) == Stop <==> IsNull(c, DesktopPolicy) || c == Str("---")
  {
    ExtractCopiesCell(RowLookup(row), mapping, className, DesktopPolicy, "name");
  }

  /** The step of every row, in order; `outcome(k)` is how saving row `k` would go. */
  function Steps(rows: seq<Row>, mapping: Mapping, className: string, outcome: nat -> DocOutcome): (r: seq<Step>)
    ensures |r| == |rows|
    ensures forall k :: 0 <= k < |rows| ==> r[k] == RowStep(rows[k], mapping, className, outcome(k))
  {
    seq(|rows|, k requires 0 <= k < |rows| => RowStep(rows[k], mapping, className, outcome(k)))
  }

  /** Why the loop ended: all rows done, the sentinel at a row, or an exception at a row. */
  datatype LoopEnd = Exhausted | Sentinel(at: nat) | Crashed(at: nat)

  /** The files written, in order, and how the loop ended. */
  datatype LoopRun = LoopRun(documents: seq<string>, end: LoopEnd)

  /** The index of the first row the loop did not complete. */
  function EndIndex(end: LoopEnd, rowCount: nat): nat {
    match end
    case Exhausted => rowCount
    case Sentinel(j) => j
    case Crashed(j) => j
  }

  /** The loop from step `i` on. */
  function RunFrom(steps: seq<Step>, i: nat): (r: LoopRun)
    requires i <= |steps|
    ensures i <= EndIndex(r.end, |steps|) <= |steps|
    ensures !r.end.Exhausted? ==> EndIndex(r.end, |steps|) < |steps|
    ensures |r.documents| == EndIndex(r.end, |steps|) - i
    ensures forall k :: i <= k < EndIndex(r.end, |steps|) ==> steps[k] == Write(r.documents[k - i])
    ensures r.end.Sentinel? ==> steps[r.end.at] == Stop
    ensures r.end.Crashed? ==> steps[r.end.at] == Crash
    decreases |steps| - i
  {
    if i == |steps| then LoopRun([], Exhausted)
    else
      match steps[i]
      case Stop => LoopRun([], Sentinel(i))
      case Crash => LoopRun([], Crashed(i))
      case Write(file) =>
        var rest := RunFrom(steps, i + 1);
        LoopRun([file] + rest.documents, rest.end)
  }

  /** The whole loop over the data frame's rows. */
  function Run(rows: seq<Row>, mapping: Mapping, className: string, outcome: nat -> DocOutcome): LoopRun {
    RunFrom(Steps(rows, mapping, className, outcome), 0)
  }

  /**
   * The first row whose name normalises to "---" ends the loop, provided
   * every earlier row wrote its document: exactly those earlier rows are written.
   */
  lemma SentinelEndsRun(steps: seq<Step>, j: nat)
    requires j < |steps| && steps[j] == Stop
    requires forall k :: 0 <= k < j ==> steps[k].Write?
    ensures RunFrom(steps, 0).end == Sentinel(j)
    ensures RunFrom(steps, 0).documents == seq(j, k requires 0 <= k < j => steps[k].file)
  {
    RunEndsAtNonWrite(steps);
  }

  /** The loop never ends at a row that would have written a document. */
  lemma RunEndsAtNonWrite(steps: seq<Step>)
    ensures var e := EndIndex(RunFrom(steps, 0).end, |steps|);
      e == |steps| || (e < |steps| && !steps[e].Write?)
  {
  }

  lemma {:induction false} RunFromIgnoresLaterSteps(steps: seq<Step>, later: seq<Step>, i: nat)
    requires i <= |steps|
    requires !RunFrom(steps, i).end.Exhausted?
    ensures RunFrom(steps + later, i) == RunFrom(steps, i)
    decreases |steps| - i
  {
    assert (steps + later)[i] == steps[i];
    if steps[i].Write? {
      RunFromIgnoresLaterSteps(steps, later, i + 1);
    }
  }

  /** Once the loop has stopped or failed, the rows after that point play no part: no later row produces a document. */
  lemma RunIgnoresLaterRows(rows: seq<Row>, later: seq<Row>, mapping: Mapping, className: string, outcome: nat -> DocOutcome)
    requires !Run(rows, mapping, className, outcome).end.Exhausted?
    ensures Run(rows + later, mapping, className, outcome) == Run(rows, mapping, className, outcome)
  {
    var all := Steps(rows + later, mapping, className, outcome);
    StepsPrefix(rows, later, mapping, className, outcome);
    RunFromIgnoresLaterSteps(Steps(rows, mapping, className, outcome), all[|rows|..], 0);
  }

  /** The steps of the first rows do not depend on the rows after them. */
  lemma StepsPrefix(rows: seq<Row>, later: seq<Row>, mapping: Mapping, className: string, outcome: nat -> DocOutcome)
    ensures var all := Steps(rows + later, mapping, className, outcome);
      all == Steps(rows, mapping, className, outcome) + all[|rows|..]
  {
    var all, steps := Steps(rows + later, mapping, className, outcome), Steps(rows, mapping, className, outcome);
    forall k | 0 <= k < |rows| ensures all[k] == steps[k] {
      assert (rows + later)[k] == rows[k];
    }
    PrefixOf(all, steps);
  }

  /** A sequence that agrees with `prefix` on its first positions is `prefix` followed by the rest. */
  lemma PrefixOf<T>(all: seq<T>, prefix: seq<T>)
    requires |prefix| <= |all| && forall k :: 0 <= k < |prefix| ==> all[k] == prefix[k]
    ensures all == prefix + all[|prefix|..]
  {
  }

  /** A name that is not the placeholder and saves cleanly gives "<name>.docx". */
  lemma SavedDocumentName(row: Row, mapping: Mapping, className: string)
    requires Extract(RowLookup(row), mapping, className, DesktopPolicy).Some?
    requires "name" in mapping && mapping["name"] in row
    requires !IsNull(row[mapping["name"]], DesktopPolicy) && row[mapping["name"]] != Str("---")
    ensures RowStep(row, mapping, className, Saved) == Write(PyStr(row[mapping["name"]]) + ".docx")
  {
    ExtractCopiesCell(RowLookup(row), mapping, className, DesktopPolicy, "name");
  }

  /**
   * `_convert_to_pdf`: the student names read straight from the name column
   * of every row, or `None` where a subscript raises. The mapping's `name`
   * entry is looked up inside the loop, so an empty sheet never reads it.
   */
  function ConversionNames(rows: seq<Row>, mapping: Mapping): (r: Option<seq<string>>)
    ensures r.Some? <==> forall k :: 0 <= k < |rows| ==> "name" in mapping && mapping["name"] in rows[k]
    ensures r.Some? ==> |r.value| == |rows|
    ensures r.Some? ==> forall k :: 0 <= k < |rows| ==> "name" in mapping && r.value[k] == PyStr(rows[k][mapping["name"]])
  {
    if rows == [] then Some([])
    else if "name" !in mapping then
      assert rows[0] in rows;
      None
    else if forall k :: 0 <= k < |rows| ==> mapping["name"] in rows[k] then
      Some(seq(|rows|, k requires 0 <= k < |rows| => PyStr(rows[k][mapping["name"]])))
    else None
  }

  /** An empty sheet converts nothing and raises nothing, whatever the mapping holds. */
  lemma EmptySheetConvertsNothing(mapping: Mapping)
    ensures ConversionNames([], mapping) == Some([])
  {
  }

  /** The conversion pass walks every row, so after the sentinel it asks for more files than were written. */
  lemma ConversionOutrunsSentinel(rows: seq<Row>, mapping: Mapping, className: string, outcome: nat -> DocOutcome)
    requires Run(rows, mapping, className, outcome).end.Sentinel?
    requires ConversionNames(rows, mapping).Some?
    ensures |ConversionNames(rows, mapping).value| > |Run(rows, mapping, className, outcome).documents|
  {
  }
}
