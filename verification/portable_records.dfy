/**
 * The portable application's data processor as its tests pin it down:
 * header rows are skipped, columns are named by spreadsheet letters, every
 * value is stringified, and the default null indicators also treat the
 * empty text and "NULL" as null.
 */
module PortableRecords {
  import opened Wrappers
  import opened Text
  import opened Cells
  import opened ColumnLetters
  import opened RecordExtraction

  /** One sheet row, read without a header: cells by column position. */
  type SheetRow = seq<Cell>

  /** The default settings: four header rows, and NAN, NONE, NA, NULL and "" shown as "---". */
  const DefaultHeaderRows: nat := 4
  const PortablePolicy: NullPolicy := NullPolicy({"NAN", "NONE", "NA", "NULL", ""}, "---")

  /** `get_student_rows`: every row after the header rows, in sheet order. */
  function StudentRows(sheet: seq<SheetRow>, skip: nat): (r: seq<SheetRow>)
    ensures |r| == if skip <= |sheet| then |sheet| - skip else 0
    ensures forall k :: 0 <= k < |r| ==> r[k] == sheet[skip + k]
  {
    if skip <= |sheet| then sheet[skip..] else []
  }

  /** `get_total_students`. */
  function TotalStudents(sheet: seq<SheetRow>, skip: nat): nat {
    |StudentRows(sheet, skip)|
  }

  /** The text of the cell a column reference names, or `None` for a reference that names no column of the row. */
  function CellText(row: SheetRow, reference: string): (r: Option<Cell>)
    ensures r.Some? <==> ColumnIndex(reference).Some? && ColumnIndex(reference).value < |row|
    ensures r.Some? ==> r.value == Str(PyStr(row[ColumnIndex(reference).value]))
  {
    match ColumnIndex(reference)
    case Some(i) => if i < |row| then Some(Str(PyStr(row[i]))) else None
    case None => None
  }

  function SheetLookup(row: SheetRow): Lookup {
    reference => CellText(row, reference)
  }

  /** `process_student_data` of the portable application, with its default null policy. */
  function ExtractStudent(row: SheetRow, mapping: Mapping, className: string): Option<Record> {
    Extract(SheetLookup(row), mapping, className, PortablePolicy)
  }

  /** The null key of the empty text is empty, so the empty text is null whenever "" is an indicator. */
  lemma EmptyNullKey()
    ensures NullKey(Str("")) == ""
  {
  }

  /** A value that survives the portable null policy is never empty text. */
  lemma SurvivorNotEmpty(c: Cell)
    requires !IsNull(c, PortablePolicy)
    ensures c != Str("")
  {
    EmptyNullKey();
  }

  /** The normalised text of a stringified cell is never empty: empty cells become "---". */
  lemma NormalisedTextNotEmpty(t: string)
    ensures Normalise(Str(t), PortablePolicy).Str?
    ensures Normalise(Str(t), PortablePolicy).s != []
  {
    if !IsNull(Str(t), PortablePolicy) {
      SurvivorNotEmpty(Str(t));
    }
  }

  /** Every value of a portable record is non-empty text. */
  lemma RecordValuesNonEmptyText(row: SheetRow, mapping: Mapping, className: string)
    requires ExtractStudent(row, mapping, className).Some?
    ensures var record := ExtractStudent(row, mapping, className).value;
      forall key :: key in record ==> record[key].Str? && record[key].s != []
  {
    var record := ExtractStudent(row, mapping, className).value;
    forall key | key in record ensures record[key].Str? && record[key].s != [] {
      if key == "class" {
        NormalisedTextNotEmpty(ClassValue(className).s);
      } else {
        FieldValueIsText(key, mapping[key], row);
        NormalisedTextNotEmpty(FieldValue(key, mapping[key], SheetLookup(row)).value.s);
      }
    }
  }

  /** Read through column letters, every field value is text. */
  lemma FieldValueIsText(key: string, reference: string, row: SheetRow)
    requires key != "class" && FieldValue(key, reference, SheetLookup(row)).Some?
    ensures FieldValue(key, reference, SheetLookup(row)).value.Str?
  {
  }

  /** An ordinary field holds the text of its column's cell when that text is not null. */
  lemma CopiesCellText(row: SheetRow, mapping: Mapping, className: string, key: string)
    requires key in mapping && !IsSpecialField(key)
    requires ExtractStudent(row, mapping, className).Some?
    ensures ColumnIndex(mapping[key]).Some? && ColumnIndex(mapping[key]).value < |row|
    ensures var t := PyStr(row[ColumnIndex(mapping[key]).value]);
      ExtractStudent(row, mapping, className).value[key] == (if IsNull(Str(t), PortablePolicy) then Str("---") else Str(t))
  {
    ExtractCopiesCell(SheetLookup(row), mapping, className, PortablePolicy, key);
  }

  /** A whole-number cell is stored as its decimal text: 85 becomes "85". */
  lemma NumberStringified(row: SheetRow, mapping: Mapping, className: string, key: string, n: int)
    requires key in mapping && !IsSpecialField(key)
    requires ExtractStudent(row, mapping, className).Some?
    requires ColumnIndex(mapping[key]).Some? && ColumnIndex(mapping[key]).value < |row|
    requires row[ColumnIndex(mapping[key]).value] == Int(n)
    ensures ExtractStudent(row, mapping, className).value[key] == Str(IntToString(n))
  {
    CopiesCellText(row, mapping, className, key);
    var t := IntToString(n);
    var d := t[|t| - 1];
    IndicatorsHaveNoDigit(d);
    MarkedValueNotNull(Str(t), PortablePolicy, d);
  }

  lemma IndicatorsHaveNoDigit(d: char)
    requires IsDigit(d)
    ensures UpperChar(d) == d
    ensures forall x :: x in PortablePolicy.indicators ==> d !in x
  {
  }

  /** The empty text, "NA" and the NaN of an empty cell all become "---". */
  lemma NullTextsBecomePlaceholder()
    ensures Normalise(Str(""), PortablePolicy) == Str("---")
    ensures Normalise(Str("NA"), PortablePolicy) == Str("---")
    ensures Normalise(Str(PyStr(NaN)), PortablePolicy) == Str("---")
  {
    EmptyNullKey();
    assert NullKey(Str("NA")) == "NA";
    assert NullKey(Str("nan")) == "NAN";
  }

  /** Skipping four header rows of a seven-row sheet leaves three students. */
  lemma SkipFourOfSeven(sheet: seq<SheetRow>)
    requires |sheet| == 7
    ensures TotalStudents(sheet, DefaultHeaderRows) == 3
    ensures StudentRows(sheet, DefaultHeaderRows) == sheet[4..]
  {
  }

  /** A class name written with an underscore, such as "Class_5A", becomes the same words with a space, "Class 5A". */
  lemma ClassNameSpaced(before: string, after: string)
    requires '_' !in before && '_' !in after
    ensures ClassValue(before + "_" + after) == Str(before + " " + after)
  {
    var s, t := before + "_" + after, before + " " + after;
    var r := ReplaceChar(s, '_', ' ');
    forall i | 0 <= i < |s| ensures r[i] == t[i] {
      if i < |before| {
        assert s[i] == before[i] == t[i];
      } else if i > |before| {
        assert s[i] == after[i - |before| - 1] == t[i];
      }
    }
  }
}
