/**
 * The command-line driver of the desktop generator: a `key=value`
 * configuration file, four required settings, and a dispatch on the
 * command-line argument.
 */
module ConfigScript {
  import opened Wrappers
  import opened Text

  type Config = map<string, string>

  /** A configuration line: stripped at both ends, then exactly one `=` between key and value. */
  function ParseLine(line: string): (r: Option<(string, string)>)
    ensures r.Some? <==> Count(Strip(line), '=') == 1
    ensures r.Some? ==> r.value.0 + "=" + r.value.1 == Strip(line)
    ensures r.Some? ==> '=' !in r.value.0 && '=' !in r.value.1
  {
    var parts := Split(Strip(line), '=');
    if |parts| == 2 then
      assert parts[1..] == [parts[1]];
      assert Join(parts[1..], '=') == parts[1];
      Some((parts[0], parts[1]))
    else None
  }

  /** A line read into a key and a value, or `None` where unpacking raises. */
  type Entry = Option<(string, string)>

  function Entries(lines: seq<string>): (r: seq<Entry>)
    ensures |r| == |lines| && forall i :: 0 <= i < |lines| ==> r[i] == ParseLine(lines[i])
  {
    seq(|lines|, i requires 0 <= i < |lines| => ParseLine(lines[i]))
  }

  /** The keys the entries define. */
  ghost function KeysOf(entries: seq<Entry>): set<string> {
    set i | 0 <= i < |entries| && entries[i].Some? :: entries[i].value.0
  }

  /** The loop of `read_config` over the lines' entries: the configuration, or the index of the first line that fails. */
  function ReadEntries(entries: seq<Entry>): (r: Result<Config, nat>)
    ensures r.Ok? <==> forall i :: 0 <= i < |entries| ==> entries[i].Some?
    ensures r.Err? ==> r.error < |entries| && entries[r.error].None?
    ensures r.Err? ==> forall i :: 0 <= i < r.error ==> entries[i].Some?
    ensures r.Ok? ==> r.value.Keys == KeysOf(entries)
    decreases |entries|
  {
    if entries == [] then Ok(map[])
    else
      var n := |entries| - 1;
      var prefix := entries[..n];
      assert forall i :: 0 <= i < n ==> prefix[i] == entries[i];
      match ReadEntries(prefix)
      case Err(i) => Err(i)
      case Ok(config) =>
        match entries[n]
        case None => Err(n)
        case Some(entry) =>
          assert KeysOf(entries) == KeysOf(prefix) + {entry.0};
          Ok(config[entry.0 := entry.1])
  }

  /**
   * `read_config`: the configuration, or the index of the first line that
   * does not split into exactly a key and a value (one bad line fails the
   * whole read).
   */
  function ReadConfig(lines: seq<string>): Result<Config, nat> {
    ReadEntries(Entries(lines))
  }

  /** A line appended to a readable file sets its key and changes nothing else. */
  lemma ReadEntriesAppend(entries: seq<Entry>, key: string, value: string)
    requires ReadEntries(entries).Ok?
    ensures ReadEntries(entries + [Some((key, value))]) == Ok(ReadEntries(entries).value[key := value])
  {
    assert (entries + [Some((key, value))])[..|entries|] == entries;
  }

  /** The value of a key is the one on the last line that sets it: later lines override earlier ones. */
  lemma {:induction false} LastEntryWins(entries: seq<Entry>, i: nat)
    requires ReadEntries(entries).Ok? && i < |entries|
    requires forall j :: i < j < |entries| ==> entries[j].value.0 != entries[i].value.0
    ensures var entry := entries[i].value;
      entry.0 in ReadEntries(entries).value && ReadEntries(entries).value[entry.0] == entry.1
    decreases |entries|
  {
    var n := |entries| - 1;
    var prefix := entries[..n];
    assert forall k :: 0 <= k < n ==> prefix[k] == entries[k];
    var config, last := ReadEntries(prefix).value, entries[n].value;
    assert ReadEntries(entries) == Ok(config[last.0 := last.1]);
    if i < n {
      LastEntryWins(prefix, i);
      assert prefix[i] == entries[i] && last.0 != entries[i].value.0;
    }
  }

  /** `read_config` fails exactly when some line does not have exactly one `=` after stripping, and reports the first such line. */
  lemma ReadConfigFailsAtFirstBadLine(lines: seq<string>)
    ensures ReadConfig(lines).Ok? <==> forall i :: 0 <= i < |lines| ==> Count(Strip(lines[i]), '=') == 1
    ensures ReadConfig(lines).Err? ==>
      && Count(Strip(lines[ReadConfig(lines).error]), '=') != 1
      && forall i :: 0 <= i < ReadConfig(lines).error ==> Count(Strip(lines[i]), '=') == 1
  {
  }

  /** The four settings the driver reads, in the order it reads them. */
  const RequiredKeys: seq<string> := ["excel_path", "word_path", "mapping_path", "class_name"]

  /** What the driver goes on to do. */
  datatype Action =
    | GenerateCards(excel: string, word: string, mapping: string, className: string)
    | ReadSheet(excel: string, mapping: string)
    | NoSuchTest

  /** Why the driver stopped with its error message instead. */
  datatype Failure = BadLine(index: nat) | MissingKey(key: string)

  /** The first required key the configuration lacks, if any. */
  function FirstMissing(config: Config, keys: seq<string>): (r: Option<string>)
    ensures r.None? <==> forall k :: k in keys ==> k in config
    ensures r.Some? ==> r.value in keys && r.value !in config
    decreases |keys|
  {
    if keys == [] then None
    else if keys[0] !in config then Some(keys[0])
    else
      assert forall k :: k in keys <==> k == keys[0] || k in keys[1..];
      FirstMissing(config, keys[1..])
  }

  /** The key reported missing is the earliest absent one in reading order. */
  lemma {:induction false} FirstMissingIsFirst(config: Config, keys: seq<string>, i: nat)
    requires i < |keys| && keys[i] !in config
    requires forall j :: 0 <= j < i ==> keys[j] in config
    ensures FirstMissing(config, keys) == Some(keys[i])
    decreases |keys|
  {
    if i > 0 {
      assert keys[0] in config;
      FirstMissingIsFirst(config, keys[1..], i - 1);
    }
  }

  /** The driver once the configuration file has been read: look up the four settings, then act on the argument. */
  function DispatchOn(arg: Option<string>, read: Result<Config, nat>): (r: Result<Action, Failure>)
    ensures r.Err? && r.error.BadLine? <==> read.Err?
  {
    match read
    case Err(i) => Err(BadLine(i))
    case Ok(config) =>
      match FirstMissing(config, RequiredKeys)
      case Some(k) => Err(MissingKey(k))
      case None =>
        assert RequiredKeys[0] in RequiredKeys && RequiredKeys[1] in RequiredKeys;
        assert RequiredKeys[2] in RequiredKeys && RequiredKeys[3] in RequiredKeys;
        var excel := config["excel_path"];
        var mapping := config["mapping_path"];
        if arg.None? || arg.value == "run" then
          Ok(GenerateCards(excel, config["word_path"], mapping, config["class_name"]))
        else if arg.value == "read_excel" then
          Ok(ReadSheet(excel, mapping))
        else Ok(NoSuchTest)
  }

  /**
   * `main(arg)`: the configuration is read and all four settings looked up
   * before the argument is looked at; then no argument or "run" generates,
   * "read_excel" reads the sheet, and anything else is not a test.
   */
  function Dispatch(arg: Option<string>, lines: seq<string>): Result<Action, Failure> {
    DispatchOn(arg, ReadConfig(lines))
  }

  /** The configuration is needed whatever the argument: even an unknown test fails on a bad or incomplete file. */
  lemma ConfigNeededForEveryArgument(arg: Option<string>, read: Result<Config, nat>)
    ensures DispatchOn(arg, read).Ok? <==> read.Ok? && forall k :: k in RequiredKeys ==> k in read.value
  {
  }

  /** With a complete configuration, the argument alone picks the action, and the settings are passed on as read. */
  lemma DispatchOnArgument(arg: Option<string>, config: Config)
    requires forall k :: k in RequiredKeys ==> k in config
    ensures (arg.None? || arg == Some("run")) ==>
      DispatchOn(arg, Ok(config)) == Ok(GenerateCards(config["excel_path"], config["word_path"], config["mapping_path"], config["class_name"]))
    ensures arg == Some("read_excel") ==> DispatchOn(arg, Ok(config)) == Ok(ReadSheet(config["excel_path"], config["mapping_path"]))
    ensures (arg.Some? && arg.value != "run" && arg.value != "read_excel") ==> DispatchOn(arg, Ok(config)) == Ok(NoSuchTest)
  {
    assert RequiredKeys[0] in RequiredKeys && RequiredKeys[1] in RequiredKeys;
    assert RequiredKeys[2] in RequiredKeys && RequiredKeys[3] in RequiredKeys;
  }

  /** A missing setting is reported by the first of the four, in reading order, that is absent. */
  lemma FirstMissingKeyReported(arg: Option<string>, config: Config, i: nat)
    requires i < |RequiredKeys| && RequiredKeys[i] !in config
    requires forall j :: 0 <= j < i ==> RequiredKeys[j] in config
    ensures DispatchOn(arg, Ok(config)) == Err(MissingKey(RequiredKeys[i]))
  {
    FirstMissingIsFirst(config, RequiredKeys, i);
  }
}
