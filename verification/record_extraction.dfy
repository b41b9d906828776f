/**
 * Turning one spreadsheet row into a student record (the desktop generator's
 * `DataProcessor.process_student_data`), and the generation loop that fills
 * one document per record until the end-of-data sentinel.
 */
module RecordExtraction {
  import opened Wrappers
  import opened Text
  import opened Cells

  /** Field name to column reference, as read from the mapping JSON. */
  type Mapping = map<string, string>

  /** Field name to value; values stay cells, as the source keeps pandas values. */
  type Record = map<string, Cell>

  /** Finds the cell a column reference points at, or `None` where the lookup raises. */
  type Lookup = string -> Option<Cell>

  /** Which values count as null, and what replaces them. */
  datatype NullPolicy = NullPolicy(indicators: set<string>, placeholder: string)

  /** The desktop generator's policy: NAN, NONE and NA become "---". */
  const DesktopPolicy: NullPolicy := NullPolicy({"NAN", "NONE", "NA"}, "---")

  /** A row of the data frame, by column header. */
  type Row = map<string, Cell>

  /** `row[label]`: a missing label raises `KeyError`. */
  function RowLookup(row: Row): Lookup {
    header => if header in row then Some(row[header]) else None
  }

  /** What the null check compares: `str(value).upper().replace(" ", "")`. */
  function NullKey(c: Cell): string {
    RemoveChar(Upper(PyStr(c)), ' ')
  }

  predicate IsNull(c: Cell, policy: NullPolicy) {
    c == NoneValue || NullKey(c) in policy.indicators
  }

  /** The uniform null policy: a null value becomes the placeholder, any other value is kept. */
  function Normalise(c: Cell, policy: NullPolicy): Cell {
    if IsNull(c, policy) then Str(policy.placeholder) else c
  }

  /** The three field names with their own rule; every other name is copied from its column. */
  predicate IsSpecialField(key: string) {
    key == "percentage" || key == "remark" || key == "class"
  }

  /** The synthesised `class` field: the class name with underscores turned into spaces. */
  function ClassValue(className: string): Cell {
    Str(ReplaceChar(className, '_', ' '))
  }

  /**
   * The value of one mapped field before null normalisation, or `None`
   * where the source raises: a missing column, a percentage that `float`
   * rejects, or a remark that is not text (`+ "!"` on a number).
   */
  function FieldValue(key: string, column: string, lookup: Lookup): Option<Cell>
    requires key != "class"
  {
    match lookup(column)
    case None => None
    case Some(c) =>
      if key == "percentage" then
        match Percentage(c)
        case None => None
        case Some(text) => Some(Str(text))
      else if key == "remark" then
        if c.Str? then Some(Str(c.s + "!")) else None
      else Some(c)
  }

  /** Every mapped field other than `class` can be read without raising. */
  predicate AllFieldsReadable(mapping: Mapping, lookup: Lookup) {
    forall key :: key in mapping && key != "class" ==> FieldValue(key, mapping[key], lookup).Some?
  }

  /**
   * `process_student_data`: one record, or `None` when any field raises
   * (the source catches every exception and returns None, never a partial record).
   */
  function Extract(lookup: Lookup, mapping: Mapping, className: string, policy: NullPolicy): (r: Option<Record>)
    ensures r.Some? <==> AllFieldsReadable(mapping, lookup)
    ensures r.Some? ==> r.value.Keys == mapping.Keys + {"class"}
    ensures r.Some? ==> forall key :: key in r.value ==>
      r.value[key] == Str(policy.placeholder) || !IsNull(r.value[key], policy)
  {
    if AllFieldsReadable(mapping, lookup) then
      Some(map key | key in mapping.Keys + {"class"} ::
        if key == "class" then Normalise(ClassValue(className), policy)
        else Normalise(FieldValue(key, mapping[key], lookup).value, policy))
    else None
  }

  /** An ordinary field holds the raw cell of its column, unless that cell is null. */
  lemma ExtractCopiesCell(lookup: Lookup, mapping: Mapping, className: string, policy: NullPolicy, key: string)
    requires key in mapping && !IsSpecialField(key)
    requires Extract(lookup, mapping, className, policy).Some?
    ensures lookup(mapping[key]).Some?
    ensures var c := lookup(mapping[key]).value;
      Extract(lookup, mapping, className, policy).value[key] == (if IsNull(c, policy) then Str(policy.placeholder) else c)
  {
    assert FieldValue(key, mapping[key], lookup).Some?;
  }

  /** `class` is synthesised from the class name alone: the row and the mapping never matter. */
  lemma ClassIgnoresRow(lookup1: Lookup, mapping1: Mapping, lookup2: Lookup, mapping2: Mapping, className: string, policy: NullPolicy)
    requires Extract(lookup1, mapping1, className, policy).Some?
    requires Extract(lookup2, mapping2, className, policy).Some?
    ensures Extract(lookup1, mapping1, className, policy).value["class"]
         == Extract(lookup2, mapping2, className, policy).value["class"]
         == Normalise(ClassValue(className), policy)
  {
  }

  /** A mapping entry for `class` is never read, so even a column that does not exist cannot make extraction fail. */
  lemma ClassColumnNeverRead(lookup: Lookup, mapping: Mapping, className: string, policy: NullPolicy, column: string)
    ensures Extract(lookup, mapping["class" := column], className, policy).Some?
        <==> Extract(lookup, mapping - {"class"}, className, policy).Some?
  {
    var withClass := mapping["class" := column];
    var without := mapping - {"class"};
    assert forall key :: key in withClass && key != "class" <==> key in without && key != "class";
    assert forall key :: key in without ==> withClass[key] == without[key];
  }
  /** A text mark that upper-casing keeps and space removal keeps survives into the null key. */
  lemma MarkSurvivesNullKey(c: Cell, m: char)
    requires m in PyStr(c) && m != ' ' && UpperChar(m) == m
    ensures m in NullKey(c)
  {
    var s := PyStr(c);
    var i :| 0 <= i < |s| && s[i] == m;
    assert Upper(s)[i] == m;
  }

  /** A value carrying a mark that no null indicator contains is never replaced by the placeholder. */
  lemma MarkedValueNotNull(c: Cell, policy: NullPolicy, m: char)
    requires c != NoneValue
    requires m in PyStr(c) && m != ' ' && UpperChar(m) == m
    requires forall t :: t in policy.indicators ==> m !in t
    ensures !IsNull(c, policy) && Normalise(c, policy) == c
  {
    MarkSurvivesNullKey(c, m);
  }

  lemma DesktopIndicatorsUnmarked()
    ensures forall t :: t in DesktopPolicy.indicators ==> '!' !in t && '%' !in t
  {
  }

  /** `remark` is the text of its cell with "!" appended, and the null policy never touches it. */
  lemma ExtractRemark(lookup: Lookup, mapping: Mapping, className: string, s: string)
    requires "remark" in mapping && lookup(mapping["remark"]) == Some(Str(s))
    requires Extract(lookup, mapping, className, DesktopPolicy).Some?
    ensures Extract(lookup, mapping, className, DesktopPolicy).value["remark"] == Str(s + "!")
  {
    DesktopIndicatorsUnmarked();
    assert (s + "!")[|s|] == '!';
    MarkedValueNotNull(Str(s + "!"), DesktopPolicy, '!');
  }

  /** A remark cell that is not text makes the whole extraction fail. */
  lemma ExtractRemarkNotText(lookup: Lookup, mapping: Mapping, className: string, policy: NullPolicy)
    requires "remark" in mapping && lookup(mapping["remark"]).Some? && !lookup(mapping["remark"]).value.Str?
    ensures Extract(lookup, mapping, className, policy).None?
  {
    assert FieldValue("remark", mapping["remark"], lookup).None?;
  }

  /** `percentage` is the two-decimal rendering of the cell's number followed by "%", never nulled. */
  lemma ExtractPercentage(lookup: Lookup, mapping: Mapping, className: string, negative: bool, a: nat)
    requires "percentage" in mapping && lookup(mapping["percentage"]).Some?
    requires ToFloat(lookup(mapping["percentage"]).value) == Some(Finite(negative, a))
    requires Extract(lookup, mapping, className, DesktopPolicy).Some?
    ensures Extract(lookup, mapping, className, DesktopPolicy).value["percentage"] == Str(Fixed2(negative, a) + "%")
  {
    var text := Fixed2(negative, a) + "%";
    DesktopIndicatorsUnmarked();
    assert text[|text| - 1] == '%';
    MarkedValueNotNull(Str(text), DesktopPolicy, '%');
  }

  /** A percentage cell that `float` rejects makes the whole extraction fail, not just that field. */
  lemma ExtractPercentageNotNumber(lookup: Lookup, mapping: Mapping, className: string, policy: NullPolicy)
    requires "percentage" in mapping && lookup(mapping["percentage"]).Some?
    requires ToFloat(lookup(mapping["percentage"]).value).None?
    ensures Extract(lookup, mapping, className, policy).None?
  {
    assert FieldValue("percentage", mapping["percentage"], lookup).None?;
  }

  /** A mapped column that the row lacks makes the whole extraction fail. */
  lemma ExtractMissingColumn(row: Row, mapping: Mapping, className: string, policy: NullPolicy, key: string)
    requires key in mapping && key != "class" && mapping[key] !in row
    ensures Extract(RowLookup(row), mapping, className, policy).None?
  {
    assert FieldValue(key, mapping[key], RowLookup(row)).None?;
  }

  /** The empty string is an ordinary value for the desktop generator, not a null. */
  lemma EmptyTextNotNull()
    ensures !IsNull(Str(""), DesktopPolicy) && Normalise(Str(""), DesktopPolicy) == Str("")
  {
    assert NullKey(Str("")) == "";
  }

  /** Python's None and the float NaN that pandas stores for an empty cell both become "---". */
  lemma MissingValuesAreNull()
    ensures Normalise(NoneValue, DesktopPolicy) == Str("---")
    ensures Normalise(NaN, DesktopPolicy) == Str("---")
  {
    assert NullKey(NaN) == "NAN";
  }
}
