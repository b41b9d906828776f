# School report card generator: a Dafny model

SchoolReportGenerator turns one spreadsheet of student marks into one report
card per student. A JSON mapping says which column holds which field. The
cards are filled from a Word template and converted to PDF. This project
models the logic of that pipeline in Dafny and proves properties about it.
There are two generations of the program, and both are modelled.

- **The desktop generator** (`ReportGenV2.py`).
  - Each sheet row is read into a record through the label mapping. `percentage` is formatted and `remark` gets a `!`. The class name has its underscores turned into blanks.
  - Null-looking values become `---`.
  - One Word document is written per row. The loop stops at the first student named `---`.
  - The PDF pass then walks every row again.
  - Its command-line driver (`test.py`) reads a `key=value` configuration file, looks up four settings and dispatches on its argument.
- **The portable application** (`portable-app/`).
  - The report generator validates the three input files and builds one record per student row, addressing columns by spreadsheet letters.
  - It fills one document per student under a sanitised file name, then converts all documents in one LibreOffice run. It reports counts and errors in a result record.
  - The PDF converter locates the office program, checks that it answers, and converts single documents or whole batches.
  - The web front end checks uploaded file names, guards the generation request, and offers a ZIP download only when something was generated.

The modules follow that structure:

| module | models |
|---|---|
| `Wrappers` | `Option` and `Result` |
| `Text` | the Python string operations the program uses (`strip`, `upper`, `split`, `str(int)`, …) |
| `Cells` | spreadsheet cell values, `str()`, `float()` and `f"{x:.2f}"` on them |
| `ColumnLetters` | spreadsheet column letters and their indices |
| `Filenames` | path base names, pathlib `stem`/`suffix`, file-name sanitising |
| `RecordExtraction` | building a student record from a row (desktop `process_student_data`) |
| `DesktopGenerator` | the desktop generation loop and its PDF pass |
| `ConfigScript` | the command-line driver of the desktop generator |
| `PortableRecords` | student rows and records of the portable data processor |
| `Template` | `{{name}}` placeholders and filling them |
| `PdfConverter` | the LibreOffice converter: location, availability, single and batch conversion |
| `ReportGenerator` | `generate` and `validate_inputs` of the portable generator |
| `WebApp` | `allowed_file`, the upload check and the generation route |

Everything outside the program's own logic becomes a parameter:
- the file system is a set of existing paths;
- the external office program is a function from an invocation to its outcome;
- the failure of each template fill is a function from the student's position to an optional message;
- loading the workbook is a `Result`.

## Model

| member | source | states |
|---|---|---|
| Text.Upper | portable-app/tests/test_data_processor.py:29-31 | upper-casing keeps the length and maps each character by itself |
| Text.Strip | test.py:9 | the stripped text is the input with exactly its leading and trailing whitespace removed: it starts after the leading whitespace, everything after it is whitespace, and it neither starts nor ends with whitespace |
| Text.Split | test.py:9 | `split` gives one more part than there are separators, no part holds the separator, and joining the parts gives the text back |
| Text.Count | test.py:9 | a count is zero exactly when the character is absent |
| Text.NatToString | ReportGenV2.py:91 | the decimal text of a natural number reads back as that number and has no leading zero |
| Text.IntToString | portable-app/app/services/report_generator.py:130 | the decimal text of an integer is signed exactly when the integer is negative, and its digits read back as the integer's magnitude |
| Text.LastIndexOf | portable-app/app/main.py:40 | the position found holds the character and nothing after it does; none is found exactly when the character is absent |
| Text.ContainsWitness | portable-app/tests/test_template_filler.py:77-80 | a text built around a piece contains that piece |
| Cells.TwoDigits | ReportGenV2.py:81 | the two-digit field reads back as the number it shows |
| Cells.Percentage | ReportGenV2.py:81 | a percentage is formatted exactly when `float()` accepts the cell; NaN gives `nan%`, a finite value its sign and two-decimal text followed by `%`, so `-0` gives `-0.00%` |
| Cells.ParseFloatOfFixed2 | ReportGenV2.py:81 | `float()` reads the two-decimal text of any sign and magnitude back as that sign and magnitude, negative zero included (magnitudes are exact; see "Left out") |
| Cells.NegativeZeroPercentage | ReportGenV2.py:81 | `float("-0")` is a negative zero and its percentage is `-0.00%` |
| Cells.UnsignedRoundTrip | ReportGenV2.py:81 | the unsigned two-decimal text reads back as its value |
| Cells.ParseFloatOfSigned | ReportGenV2.py:81 | a `-` in front of a fixed-point text makes the value `float()` reads negative, zero included, and keeps its magnitude |
| Cells.SplitAtSeparator | ReportGenV2.py:81 | a text with one decimal point splits into exactly the whole part and the fraction |
| ColumnLetters.ColumnIndex | portable-app/tests/test_data_processor.py:18-31 | a reference has an index exactly when it is non-empty and all letters |
| ColumnLetters.ColumnName | portable-app/tests/test_data_processor.py:22-27 | the letters for an index are non-empty and upper-case |
| ColumnLetters.ColumnIndexOfColumnName | portable-app/tests/test_data_processor.py:22-27 | the letters for index n read back as n |
| ColumnLetters.ColumnNameOfColumnIndex | portable-app/tests/test_data_processor.py:22-31 | a reference read and written back gives its upper-case form: the letter code is a bijection up to case |
| ColumnLetters.BijectiveOfColumnName | portable-app/tests/test_data_processor.py:22-27 | the bijective base-26 value of the letters for index n is n + 1 |
| ColumnLetters.ColumnIndexIgnoresCase | portable-app/tests/test_data_processor.py:29-31 | lower- and upper-case references address the same column |
| ColumnLetters.BijectiveBounds | portable-app/tests/test_data_processor.py:22-27 | a reference of k letters lies strictly above every reference of fewer letters and at most at the all-`Z` value |
| ColumnLetters.ShorterIsEarlier | portable-app/tests/test_data_processor.py:24-25 | a shorter reference always addresses an earlier column (`Z` before `AA`) |
| ColumnLetters.TestVectors | portable-app/tests/test_data_processor.py:22-31 | the concrete cases A, B, Z, AA, AB, AZ, a, aa give 0, 1, 25, 26, 27, 51, 0, 26 |
| Filenames.BaseName | portable-app/app/services/pdf_converter.py:131 | a base name is the slash-free tail of the path |
| Filenames.SuffixStart | portable-app/app/services/report_generator.py:203 | the suffix dot is the last dot, neither first nor last in the name |
| Filenames.StemSuffixSplit | portable-app/app/services/pdf_converter.py:131 | stem followed by suffix is the whole name |
| Filenames.StemOfExtended | portable-app/app/services/report_generator.py:138 | a name built as `stem + ".ext"` has that stem and that suffix, so the expected PDF of `safe.docx` is `safe.pdf` |
| Filenames.Sanitize | portable-app/tests/test_template_filler.py:16-32 | a sanitised name is never empty, starts with no blank and ends with no blank or dot |
| Filenames.BaseNameOfJoined | portable-app/app/services/report_generator.py:138 | joining a folder and a name without a slash gives back that name as the final component |
| Filenames.SanitizeIsSafe | portable-app/tests/test_template_filler.py:16-32 | a sanitised name is non-empty, has no reserved character, starts with no blank and ends with no blank or dot |
| Filenames.SanitizeStartsClean | portable-app/tests/test_template_filler.py:32 | a sanitised name is non-empty and starts with no blank |
| Filenames.SanitizeEndsClean | portable-app/tests/test_template_filler.py:31-32 | a sanitised name is non-empty and ends with no blank or dot |
| Filenames.SanitizeHasNoReserved | portable-app/tests/test_template_filler.py:25-27 | no reserved character survives sanitising |
| Filenames.SanitizeKeepsSafeName | portable-app/tests/test_template_filler.py:21-22 | an already safe name is left exactly as it is |
| Filenames.SanitizeIdempotent | portable-app/tests/test_template_filler.py:16-32 | sanitising twice is sanitising once |
| Filenames.SanitizeReplacesInPlace | portable-app/tests/test_template_filler.py:25-27 | with clean ends, sanitising only replaces reserved characters one for one |
| Filenames.SanitizeOfBlanksAndDots | portable-app/tests/test_template_filler.py:30-31 | a name of only blanks and dots (the empty name included) becomes `unnamed` |
| Filenames.SanitizeTrimsBlanks | portable-app/tests/test_template_filler.py:32 | blanks around a safe name are removed and nothing else changes |
| RecordExtraction.Extract | ReportGenV2.py:62-102 | a record exists exactly when every mapped field can be read; its keys are the mapping's plus `class`, and null-looking values are replaced by the placeholder |
| RecordExtraction.ExtractCopiesCell | ReportGenV2.py:77-79 | a plain field holds its column's value, or the placeholder when that value looks null |
| RecordExtraction.ClassIgnoresRow | ReportGenV2.py:85 | `class` depends only on the class name, never on the row or the mapping |
| RecordExtraction.ClassColumnNeverRead | ReportGenV2.py:77-85 | a `class` entry in the mapping is never read, even when its column does not exist |
| RecordExtraction.MarkedValueNotNull | ReportGenV2.py:88-94 | a value whose text carries a mark no null indicator has is kept as it is |
| RecordExtraction.ExtractRemark | ReportGenV2.py:82-83 | a text remark gets a `!` appended and is then never null |
| RecordExtraction.ExtractRemarkNotText | ReportGenV2.py:82-102 | a remark that is not text makes the whole record fail |
| RecordExtraction.ExtractPercentage | ReportGenV2.py:80-81 | a numeric percentage becomes its two-decimal text followed by `%` |
| RecordExtraction.ExtractPercentageNotNumber | ReportGenV2.py:80-102 | a percentage `float()` rejects makes the whole record fail |
| RecordExtraction.ExtractMissingColumn | ReportGenV2.py:77-102 | a mapped column the row lacks makes the whole record fail |
| RecordExtraction.EmptyTextNotNull | ReportGenV2.py:88-94 | in the desktop generator an empty cell text is not treated as null |
| RecordExtraction.MissingValuesAreNull | ReportGenV2.py:88-94 | `None` and NaN become the placeholder |
| DesktopGenerator.RowStep | ReportGenV2.py:139-170 | a row ends the loop exactly when its record is built with a `---` name; it crashes exactly when the record fails, has no name entry, or the template cannot be opened; a render failure writes the dummy document and a saved one is named after the student |
| DesktopGenerator.StopsAtPlaceholderName | ReportGenV2.py:88-146 | a row ends the loop exactly when its name cell is `---` or looks null |
| DesktopGenerator.RunFrom | ReportGenV2.py:139-150 | the loop writes one document per row until it is exhausted, meets the sentinel, or crashes, and each written document is the one that row writes |
| DesktopGenerator.SentinelEndsRun | ReportGenV2.py:145-146 | the first `---` student ends the loop, and exactly the rows before it are written |
| DesktopGenerator.RunEndsAtNonWrite | ReportGenV2.py:139-150 | the loop only stops early at a row that writes nothing |
| DesktopGenerator.RunIgnoresLaterRows | ReportGenV2.py:139-150 | rows after the one that ends the loop have no influence on it |
| DesktopGenerator.SavedDocumentName | ReportGenV2.py:156-170 | a saved document is named after the student's name cell with `.docx` |
| DesktopGenerator.ConversionNames | ReportGenV2.py:175-191 | the PDF pass takes a name from every row; it raises exactly when some row is reached while the mapping has no `name` entry or the row lacks the name column, so an empty sheet never raises |
| DesktopGenerator.EmptySheetConvertsNothing | ReportGenV2.py:184-185 | on an empty sheet the pass converts nothing and raises nothing, whatever the mapping holds |
| DesktopGenerator.ConversionOutrunsSentinel | ReportGenV2.py:139-191 | after a sentinel, the PDF pass still goes through more rows than documents were written |
| ConfigScript.ParseLine | test.py:9 | a line is read exactly when its stripped text has one `=`, and key, `=` and value make up that text |
| ConfigScript.ReadEntries | test.py:5-11 | reading succeeds exactly when every line is readable, fails at the first bad line otherwise, and defines exactly the keys of the lines |
| ConfigScript.ReadEntriesAppend | test.py:8-10 | one more line sets its key and leaves every other key alone |
| ConfigScript.LastEntryWins | test.py:8-10 | a key's value is the one on the last line that sets it |
| ConfigScript.ReadConfigFailsAtFirstBadLine | test.py:5-11 | the file is rejected exactly when a line lacks exactly one `=` after stripping, and the first such line is named |
| ConfigScript.FirstMissing | test.py:16-19 | a key is reported missing exactly when some required key is absent, and it is one of them |
| ConfigScript.FirstMissingIsFirst | test.py:16-19 | the key reported is the earliest absent one in reading order |
| ConfigScript.DispatchOn | test.py:13-34 | a bad configuration line is reported exactly when reading the file failed |
| ConfigScript.ConfigNeededForEveryArgument | test.py:14-22 | the driver proceeds, whatever its argument, exactly when the file reads and all four settings are present |
| ConfigScript.DispatchOnArgument | test.py:22-30 | no argument or `run` generates with the four settings, `read_excel` reads the sheet, anything else is no test |
| ConfigScript.FirstMissingKeyReported | test.py:14-34 | a missing setting is reported by its name, the first absent one in reading order |
| PortableRecords.StudentRows | portable-app/tests/test_data_processor.py:78-84 | the student rows are the sheet's rows after the header rows, in order |
| PortableRecords.CellText | portable-app/tests/test_data_processor.py:86-90 | a column reference reads its cell as text exactly when the letters name a column inside the row |
| PortableRecords.CopiesCellText | portable-app/tests/test_data_processor.py:88-89 | a plain field holds its cell's text, or `---` when the text looks null |
| PortableRecords.NumberStringified | portable-app/tests/test_data_processor.py:89 | a number cell appears in the record as its decimal text |
| PortableRecords.RecordValuesNonEmptyText | portable-app/tests/test_data_processor.py:86-128 | every value of a portable record is non-empty text |
| PortableRecords.FieldValueIsText | portable-app/tests/test_data_processor.py:88-89 | a field read from a row is text |
| PortableRecords.NullTextsBecomePlaceholder | portable-app/tests/test_data_processor.py:125-128 | empty text, `NA` and NaN become `---` |
| PortableRecords.NormalisedTextNotEmpty | portable-app/tests/test_data_processor.py:126-128 | no text comes out of null handling empty |
| PortableRecords.SurvivorNotEmpty | portable-app/app/services/report_generator.py:39 | the empty text is always treated as null in the portable generator |
| PortableRecords.SkipFourOfSeven | portable-app/tests/test_data_processor.py:46-84 | seven rows with four header rows give three students: the last three rows |
| PortableRecords.ClassNameSpaced | portable-app/tests/test_data_processor.py:87-90 | `Class_5A` becomes `Class 5A`: each underscore becomes a blank |
| PortableRecords.IndicatorsHaveNoDigit | portable-app/app/services/report_generator.py:39 | no null indicator contains a digit, so a value with a digit is never null |
| Template.Fill | portable-app/tests/test_template_filler.py:68-80 | filling keeps the template's length; a placeholder the record knows becomes its value, every other token is kept as it is, and the placeholders left are exactly those the record has no value for |
| Template.FillLeavesUnknownHoles | portable-app/tests/test_template_filler.py:78 | after filling, the placeholders left are exactly those without a value |
| Template.FillIdempotent | portable-app/tests/test_template_filler.py:68 | filling a filled template again with the same record changes nothing |
| Template.FillWithNothing | portable-app/tests/test_template_filler.py:68 | an empty record leaves the template as it is |
| Template.RenderAppend | portable-app/tests/test_template_filler.py:75 | the text of two token runs is the two texts one after the other |
| Template.RenderAround | portable-app/tests/test_template_filler.py:75 | each token's text sits in the document between the texts of the tokens around it |
| Template.FilledValueAppears | portable-app/tests/test_template_filler.py:77-80 | each value supplied for a placeholder appears in the filled document |
| Template.FindClose | portable-app/tests/test_template_filler.py:48-52 | the closing `}}` found is the first one at or after the start |
| Template.ParseRender | portable-app/tests/test_template_filler.py:44-53 | reading template text loses nothing: rendering what was read gives the text back |
| Template.ParsePlaceholder | portable-app/tests/test_template_filler.py:48 | `{{name}}` is read as a single placeholder called `name` |
| Template.FillText | portable-app/tests/test_template_filler.py:56-68 | a template can be filled exactly when its text can be read |
| Template.FillTextWithNothing | portable-app/tests/test_template_filler.py:56-68 | filling readable text with an empty record gives the text back |
| PdfConverter.Locate | portable-app/app/services/pdf_converter.py:33-39 | a non-empty given path wins, otherwise the path found; with neither, construction fails with its message |
| PdfConverter.IsAvailable | portable-app/app/services/pdf_converter.py:240-254 | the converter is available exactly when there is a path and the version query exits with status 0 |
| PdfConverter.FirstNonEmpty | portable-app/app/services/pdf_converter.py:137 | `a or b or c` is the first non-empty text |
| PdfConverter.Convert | portable-app/app/services/pdf_converter.py:88-143 | a missing input is reported without running the tool; otherwise conversion succeeds exactly when the run completed and the expected PDF exists, and then the result is that PDF's path |
| PdfConverter.ConvertIgnoresExitStatus | portable-app/app/services/pdf_converter.py:120-138 | of a completed single run only the PDF left behind decides success, not its exit status |
| PdfConverter.ConvertAgreesWithSingleCall | portable-app/app/services/pdf_converter.py:88-238 | an existing document converts on its own exactly when a batch of just that document has one success |
| PdfConverter.ConvertBatch | portable-app/app/services/pdf_converter.py:162-174 | one entry per document, in input order, each the single conversion of that document |
| PdfConverter.ConvertBatchMissingFails | portable-app/app/services/pdf_converter.py:162-174 | an entry succeeds only for an existing document, and a missing one fails with `File not found:` and its path |
| PdfConverter.Reconcile | portable-app/app/services/pdf_converter.py:222-229 | every document is counted once, as a success or a failure, and each failure has one error |
| PdfConverter.ReconcileFailsIffMissing | portable-app/app/services/pdf_converter.py:222-229 | a batch has no failure exactly when every expected PDF exists |
| PdfConverter.ReconcileReportsMissing | portable-app/app/services/pdf_converter.py:224-229 | every document without its PDF has its message among the errors |
| PdfConverter.ReconcileReportsOnlyMissing | portable-app/app/services/pdf_converter.py:224-229 | every error names a document of the batch whose PDF is missing |
| PdfConverter.ReconcileOne | portable-app/app/services/pdf_converter.py:224-229 | a single document is a success exactly when its PDF exists, and a failure with its message otherwise |
| PdfConverter.ReconcileAppend | portable-app/app/services/pdf_converter.py:222-229 | the batch is checked document by document: counts add up and errors keep input order |
| PdfConverter.TallyAfterCombine | portable-app/app/services/pdf_converter.py:222-229 | checking one more document commutes with putting two partial results together |
| PdfConverter.BatchInvocation | portable-app/app/services/pdf_converter.py:204-218 | the batch run gets every document as an argument, and a timeout of the per-document limit times the batch size |
| PdfConverter.ConvertBatchSingleCall | portable-app/app/services/pdf_converter.py:176-238 | every document is counted once; an empty batch does nothing; a completed run is checked file by file; a timeout or exception fails the whole batch with one message |
| PdfConverter.EmptyBatchRunsNothing | portable-app/app/services/pdf_converter.py:201-202 | an empty batch gives the same empty result whatever the tool would do |
| PdfConverter.ExitStatusIgnored | portable-app/app/services/pdf_converter.py:214-229 | of a completed run only the files left behind matter, not its exit status or output |
| PdfConverter.AbortedBatchFailsAll | portable-app/app/services/pdf_converter.py:212-236 | a run that ends early fails every document with exactly one error |
| PdfConverter.CompletedBatchReportsMissing | portable-app/app/services/pdf_converter.py:222-229 | after a completed run, a document without its PDF is reported by its file name |
| PdfConverter.CompletedBatchSucceedsIffAllConverted | portable-app/app/services/pdf_converter.py:222-229 | a completed run has no failure exactly when every document's PDF exists |
| PdfConverter.SameStemCountedTwice | portable-app/app/services/pdf_converter.py:224-227 | two documents expecting the same PDF are both counted as converted by that one file |
| ReportGenerator.StudentStep | portable-app/app/services/report_generator.py:123-144 | a student ends the run exactly when their record cannot be built, fails exactly when the fill raises (with a line naming them and the error), and is otherwise filled at the sanitised name with `.docx` in the temporary folder |
| ReportGenerator.FilledDocumentExpectsItsPdf | portable-app/app/services/report_generator.py:138 | a filled document's file name is the sanitised name with `.docx`, so the batch looks for the sanitised name with `.pdf` |
| ReportGenerator.FillAll | portable-app/app/services/report_generator.py:123-144 | every failure has one error line; the run is cut short exactly at the first record that cannot be built, and every student before it is either filled or failed |
| ReportGenerator.FillAllAppend | portable-app/app/services/report_generator.py:123-144 | the fill phase keeps student order: documents and error lines of consecutive stretches come out in sequence |
| ReportGenerator.FillAllSnoc | portable-app/app/services/report_generator.py:123-144 | the last student is recorded after all the others |
| ReportGenerator.RecordAfterConcat | portable-app/app/services/report_generator.py:123-144 | recording a student commutes with putting earlier outcomes in front |
| ReportGenerator.FillOne | portable-app/app/services/report_generator.py:136-144 | one student is a document, a failure with its line, or the end of the run |
| ReportGenerator.FillFailureCounted | portable-app/app/services/report_generator.py:142-144 | a fill that raises costs one failure and one error line, and the loop goes on |
| ReportGenerator.DefaultStudentName | portable-app/app/services/report_generator.py:124-130 | a student without a name is called `Student_` followed by their position counted from 1 |
| ReportGenerator.Finish | portable-app/app/services/report_generator.py:146-159 | the finished result carries the total number of students |
| ReportGenerator.FinishSuccess | portable-app/app/services/report_generator.py:146-159 | with every student accounted for by the fill, generated plus failed is the total, and success means no failure, no error and every student generated |
| ReportGenerator.Generate | portable-app/app/services/report_generator.py:43-171 | the result always names the output directory it was given |
| ReportGenerator.ValidationErrorsReturned | portable-app/app/services/report_generator.py:86-89 | the data processor's own errors come back as the only errors, with nothing counted |
| ReportGenerator.UnavailableConverter | portable-app/app/services/report_generator.py:101-104 | a converter that does not answer gives exactly one error and no success |
| ReportGenerator.MissingConverter | portable-app/app/services/report_generator.py:97-169 | with no converter program found, the constructor's message ends the run as an unexpected error |
| ReportGenerator.NoStudents | portable-app/app/services/report_generator.py:113-119 | a sheet without student rows gives one error and a total of zero |
| ReportGenerator.EarlyExitFails | portable-app/app/services/report_generator.py:86-119 | every early return is a failure with nothing generated and at least one error |
| ReportGenerator.CountsConserved | portable-app/app/services/report_generator.py:113-159 | a run through both phases accounts for every student: generated plus failed is the total |
| ReportGenerator.GenerateCompletes | portable-app/app/services/report_generator.py:121-159 | a run through both phases is the fill outcome merged with the single batch conversion |
| ReportGenerator.SuccessIffNoFailure | portable-app/app/services/report_generator.py:159 | a completed run succeeds exactly when nothing failed, and then has no errors and generated every student |
| ReportGenerator.ErrorsInPhaseOrder | portable-app/app/services/report_generator.py:142-157 | the errors are the fill failures in student order, then the batch's errors; no batch runs without documents |
| ReportGenerator.RecordFailureAborts | portable-app/app/services/report_generator.py:127-169 | a record that cannot be built stops the run: the total and the failures so far are kept, the unexpected error comes last, and nothing is generated |
| ReportGenerator.Found | portable-app/app/services/report_generator.py:190-227 | the problems found are exactly the checks that failed |
| ReportGenerator.FoundInCheckOrder | portable-app/app/services/report_generator.py:190-227 | problems come out in the order of the checks that found them |
| ReportGenerator.Violations | portable-app/app/services/report_generator.py:173-227 | every check runs; the problems found are exactly the failing checks, in check order |
| ReportGenerator.NoViolationsIff | portable-app/app/services/report_generator.py:173-227 | no problem exactly when all three files exist, all three extensions are allowed, and the mapping is a non-empty JSON object |
| ReportGenerator.ValidIff | portable-app/app/services/report_generator.py:173-227 | `validate_inputs` returns nothing exactly when every check passes, a path's extension being its lower-cased suffix |
| ReportGenerator.MissingAlwaysReported | portable-app/app/services/report_generator.py:192-200 | a file is reported missing exactly when it does not exist, whatever else is wrong |
| ReportGenerator.BadExtensionAlwaysReported | portable-app/app/services/report_generator.py:202-213 | an extension is reported exactly when it is not allowed, whatever else is wrong |
| ReportGenerator.MissingMappingNotRead | portable-app/app/services/report_generator.py:216-225 | a missing mapping file's content is never looked at |
| WebApp.StripLeadingDots | portable-app/app/main.py:40 | `lstrip('.')` removes exactly the leading dots |
| WebApp.Normalised | portable-app/app/main.py:40 | each allowed extension is compared without its leading dots |
| WebApp.LastPart | portable-app/app/main.py:40 | the text after the last dot has no dot |
| WebApp.NoDotRejected | portable-app/app/main.py:39 | a name without a dot is never accepted |
| WebApp.LastPartOf | portable-app/app/main.py:40 | in `stem.ext`, with no dot in `ext`, the last part is `ext` |
| WebApp.AllowedFileIff | portable-app/app/main.py:37-40 | `stem.ext` is accepted exactly when the lower-cased `ext` equals an allowed entry without its leading dots |
| WebApp.NormalisedAppend | portable-app/app/main.py:40 | normalising works entry by entry |
| WebApp.DotOptional | portable-app/app/main.py:40 | an allowed extension may be written with or without its dot |
| WebApp.Missing | portable-app/app/main.py:103-110 | the missing slots are exactly those not stored, in the fixed order Excel, template, mapping |
| WebApp.ReportOkIffAllStored | portable-app/app/main.py:103-120 | an upload succeeds exactly when all three slots are stored |
| WebApp.UploadIffAllAccepted | portable-app/app/main.py:75-120 | an upload succeeds exactly when all three parts are present, named and allowed |
| WebApp.OneMissingNamed | portable-app/app/main.py:103-114 | with one slot missing, the message names just that slot |
| WebApp.NothingStoredNamesAll | portable-app/app/main.py:103-114 | with nothing stored, all three slots are named, in order |
| WebApp.RefusedIffIncomplete | portable-app/app/main.py:135-146 | a request is refused exactly when a parameter is missing or empty, the class name counting after stripping |
| WebApp.ValidationStopsRun | portable-app/app/main.py:155-162 | a request whose inputs fail validation never starts a run and passes the messages on unchanged |
| WebApp.ZipIffGenerated | portable-app/app/main.py:173-180 | a download is offered exactly when at least one report was generated |
| WebApp.EarlyExitNoZip | portable-app/app/main.py:165-180 | a run stopped by one of its early returns offers no download |

## Left out

- The desktop generator's Tkinter window (`ReportGenV2.py:193-360`) and the `win32com` / `docx2pdf` calls. They are user interface and foreign calls. The PDF pass is modelled only as the list of names it converts.
- Reading spreadsheets and JSON. pandas and `json.load` are foreign code. A sheet is a sequence of rows of cells. A decoded mapping is a `map`. The mapping file's decoded content is one of four outcomes (`MappingContent`).
- Printing, `traceback`, progress callbacks, `uuid`, `mkdtemp`/`rmtree`, directory creation and ZIP writing. These are side effects with no bearing on the results modelled. The ZIP is represented by its download link.
- Locating LibreOffice on the platform (`pdf_converter.py:41-86`) and `get_version`. These depend on the operating system, so the search result is a parameter.
- The subprocess itself. Each run is an oracle `Tool` from the invocation to its outcome: completed with status, output and files present; timed out; or raised.
- The file system. It is a set of existing paths. Whether a template fill raises is an oracle indexed by the student's position.
- Flask request parsing, `secure_filename`, `send_file`, the download route and the 500 answers of the routes. These are web framework code. Form parts are optional file names.
- Non-string JSON values in a generation request (`null`, numbers). The request holds optional strings only.
- `data_processor.py` and `template_filler.py` are not part of this model. The portable data processor's `process_student_data` is assumed to follow the desktop extraction rules: a percentage becomes its two-decimal text with `%`, a remark gets `!`, and a mapped column the row lacks fails the record. Its tests do not check these rules; only the null indicators and the header row count come from its tests and the generator's default settings. The data processor's own `validate()` result is an input of `Generate`. The message of an exception while building a record is a parameter.
- Template: docxtpl's rendering (Jinja syntax, runs split across Word XML) is not modelled. The template is a text of literals and `{{name}}` placeholders.
- Cells.ParseFloat: `float()` on text is modelled for fixed-point text with at most two decimals, an optional sign and `nan`. Other spellings accepted by Python (exponents, `inf`, more decimals, underscores) are treated as a `ValueError`.
- Cells.PyStr: `repr` of a float is modelled for values with at most two decimals below 10^16. Beyond that Python switches to exponent notation. A float cell holding `-0.0` is not represented; negative zero arises only from text such as `"-0"`.
- ConfigScript.Dispatch: what the chosen action then does (running the generator, printing the sheet) is not modelled. The `IndexError` that `sys.argv[1]` raises when no argument is given is not modelled either; `None` stands for calling `main` without an argument.
- ReportGenerator.Generate: when two students' names sanitise to the same file name, both documents are counted, though only one file survives. The file-level view of that is stated by `PdfConverter.SameStemCountedTwice`.
- The generator's settings other than the defaults. The web route uses `DefaultExtensions`, and the header row count and null indicators are the default settings.
- Text.Upper: maps ASCII letters only. Python's `str.upper()` follows Unicode and can change the length (`'ß'.upper()` is `"SS"`).
- Text.Lower: maps ASCII letters only, where Python's `str.lower()` follows Unicode.
- Text.Strip: strips the characters Python's `str.isspace()` accepts for Latin-1, the C1 separators and the Unicode space separators; it relies on that list matching Python's.
- Filenames.Sanitize: `sanitize_filename` itself is not part of this model. The model follows its tests. The reserved set also holds `*`, `?`, `"` and `|`, which the tests do not check. Only leading blanks are trimmed at the start, but blanks and dots at the end, so `".a"` is kept while `"a."` becomes `"a"`.
- ReportGenerator.Violations: only a JSON decoding error of the mapping file becomes a message. `validate_inputs` lets other exceptions escape, such as `IsADirectoryError` or `UnicodeDecodeError`; the decoded content is one of four outcomes, so these cannot occur in the model.
- Opening the configuration file: a file that cannot be opened (`test.py:6`) is not modelled; the file is given as its lines.
- Paths are plain strings joined with `/`. `pathlib` normalisation is not modelled: `BaseName("a/b.docx/")` is empty where `Path.name` gives `b.docx`, and backslashes are not separators.
- Cells.Percentage: finite values are exact hundredths. A Python float keeps 53 bits, so a magnitude above 2^53 is rounded before formatting (`"1234567890123456789.01"` prints as `1234567890123456768.00%`), while the model keeps every digit.
