/** The script that loads `.github/repository-config.yml` for a GitHub
    Actions step: it reads the environment, checks that the file exists,
    reads and parses it, appends output records (three, unless a failure
    after parsing makes the handler add three more after those already
    written), summary lines and console lines, and exits with a status.

    The file system, PyYAML's `safe_load`, `json.dumps`, path rendering and
    the texts of Python's own exceptions are not modelled; they are the
    fields of a `World` value. What else the model leaves out (exceptions
    from `exists()` and `absolute()`, failing or aliased sinks, newline
    translation) is listed in README.md under "Left out". */
module LoadConfig {
  import opened Wrappers
  import opened Text
  import opened OutputFormat

  // ---------------------------------------------------------------------
  // Environment

  type Env = map<string, string>

  const DefaultConfigFile: string := ".github/repository-config.yml"

  /** `os.environ.get(name, default)` */
  function EnvGet(env: Env, name: string, default: string): string
  {
    if name in env then env[name] else default
  }

  /** `if os.environ.get(name):` holds: the variable is set and not empty. */
  predicate EnvSet(env: Env, name: string)
  {
    name in env && env[name] != ""
  }

  /** The fail-fast policy: `FAIL_ON_MISSING`, default `"false"`, lower-cased,
      equals `"true"`. */
  function FailOnMissing(env: Env): bool
  {
    AsciiLower(EnvGet(env, "FAIL_ON_MISSING", "false")) == "true"
  }

  /** `v` spells "true" in any mix of upper and lower case. */
  predicate IsTrueWord(v: string)
  {
    |v| == 4 && v[0] in "tT" && v[1] in "rR" && v[2] in "uU" && v[3] in "eE"
  }

  // ---------------------------------------------------------------------
  // Documents

  /** A mapping key: a string, or another scalar shown by its `str()` text. */
  datatype Key = StrKey(s: string) | OtherKey(display: string)

  /** A document as `yaml.safe_load` returns it (mappings keep parse order). */
  datatype Yaml =
    | Null
    | Bool(b: bool)
    | Int(i: int)
    | Float(x: real)
    | Str(s: string)
    | Timestamp(text: string)
    | List(items: seq<Yaml>)
    | Mapping(entries: seq<(Key, Yaml)>)

  /** Python truthiness of the document. */
  predicate Truthy(y: Yaml)
  {
    match y
    case Null => false
    case Bool(b) => b
    case Int(i) => i != 0
    case Float(x) => x != 0.0
    case Str(s) => s != ""
    case Timestamp(_) => true
    case List(items) => items != []
    case Mapping(entries) => entries != []
  }

  /** `yaml.safe_load(raw) or {}`: every falsy document becomes `{}`. */
  function Normalise(doc: Yaml): Yaml
  {
    if Truthy(doc) then doc else Mapping([])
  }

  /** `list(data.keys())` */
  function KeysOf(entries: seq<(Key, Yaml)>): (keys: seq<Key>)
    ensures |keys| == |entries|
    ensures forall i :: 0 <= i < |entries| ==> keys[i] == entries[i].0
  {
    if entries == [] then [] else [entries[0].0] + KeysOf(entries[1..])
  }

  /** The text `f"{k}"` gives for a key. */
  function Display(k: Key): string
  {
    match k
    case StrKey(s) => s
    case OtherKey(d) => d
  }

  /** `` f'`{k}`' for k in keys `` */
  function Quoted(keys: seq<Key>): (q: seq<string>)
    ensures |q| == |keys|
    ensures forall i :: 0 <= i < |keys| ==> q[i] == "`" + Display(keys[i]) + "`"
  {
    if keys == [] then [] else ["`" + Display(keys[0]) + "`"] + Quoted(keys[1..])
  }

  /** The index of the first key that is not a `str`, or `|keys|`. */
  function FirstNonStrKey(keys: seq<Key>): (k: nat)
    ensures k <= |keys|
    ensures k < |keys| ==> keys[k].OtherKey?
    ensures forall i :: 0 <= i < k ==> keys[i].StrKey?
  {
    if keys == [] then 0
    else if keys[0].OtherKey? then 0
    else 1 + FirstNonStrKey(keys[1..])
  }

  /** The keys as the strings `', '.join(keys)` receives. */
  function KeyTexts(keys: seq<Key>): (t: seq<string>)
    ensures |t| == |keys|
    ensures forall i :: 0 <= i < |keys| ==> t[i] == Display(keys[i])
  {
    if keys == [] then [] else [Display(keys[0])] + KeyTexts(keys[1..])
  }

  // ---------------------------------------------------------------------
  // What the script cannot see into

  /** The exceptions the handlers tell apart. */
  datatype Exception = YAMLError(message: string) | OtherException(message: string)

  /** The failures Python itself raises inside the script: `data.keys()` on a
      document that is not a mapping, `', '.join` on a key that is not a `str`. */
  datatype Fault = NoKeys(data: Yaml) | KeyNotStr(index: nat, key: Key)

  datatype World = World(
    pathText: string -> string,                 // str(Path(value))
    absolute: string -> string,                 // Path.absolute()
    pathExists: string -> bool,                 // Path.exists(): a file or a directory
    readText: string -> Result<string, string>, // read_text(encoding="utf-8"), or the message it raised
    safeLoad: string -> Result<Yaml, Exception>,
    jsonDumps: Yaml -> Result<string, string>,  // json.dumps(data, separators=(",", ":"))
    describe: Fault -> string)                  // the message of a Fault

  // ---------------------------------------------------------------------
  // Messages

  const Warning: string := "\U{26A0}\U{FE0F}"
  const Check: string := "\U{2705}"
  const Cross: string := "\U{274C}"

  function ConfigPath(env: Env, w: World): string
  {
    w.pathText(EnvGet(env, "CONFIG_FILE", DefaultConfigFile))
  }

  function LoadingLine(path: string, w: World): string
  {
    "Loading config from: " + w.absolute(path)
  }

  function MissingMessage(path: string): string
  {
    Warning + " Config file not found: `" + path + "`"
  }

  function LoadedMessage(path: string): string
  {
    Check + " Loaded config from `" + path + "`"
  }

  /** The summary line that lists the sections, each key in backquotes. */
  const SectionsHeading: string := "\n**Config sections:** "

  function SectionsLine(keys: seq<Key>): string
  {
    SectionsHeading + Join(Quoted(keys), ", ")
  }

  function YamlErrorMessage(m: string): string
  {
    "Failed to parse YAML: " + m
  }

  function UnexpectedMessage(m: string): string
  {
    "Unexpected error: " + m
  }

  /** The outputs of every path that has no configuration to report. */
  function AbsentTriple(): seq<Record>
  {
    [Record("has-config", "false"), Record("config", "{}"), Record("raw-yaml", "")]
  }

  function LoadedTriple(json: string, raw: string): seq<Record>
  {
    [Record("has-config", "true"), Record("config", json), Record("raw-yaml", raw)]
  }

  lemma LoadedTripleParts(json: string, raw: string)
    ensures [Record("has-config", "true")] + [Record("config", json), Record("raw-yaml", raw)]
         == LoadedTriple(json, raw)
  {
  }

  // ---------------------------------------------------------------------
  // One run, as a function of the environment and the world

  /** What the `try` block wrote before it finished or raised. */
  datatype Attempt = Attempt(outputs: seq<Record>, summaries: seq<string>, stdout: seq<string>, raised: Option<Exception>)

  /** What a run appends to each sink, and its exit status. */
  datatype Effects = Effects(outputs: seq<Record>, summaries: seq<string>, stdout: seq<string>, exitCode: int)

  /** The `try` block: read, parse, write the loaded triple and the summary. */
  function TryBlock(path: string, w: World): Attempt
  {
    match w.readText(path)
    case Failure(m) => Attempt([], [], [], Some(OtherException(m)))
    case Success(raw) =>
      match w.safeLoad(raw)
      case Failure(e) => Attempt([], [], [], Some(e))
      case Success(doc) =>
        var data := Normalise(doc);
        match w.jsonDumps(data)
        case Failure(m) => Attempt([Record("has-config", "true")], [], [], Some(OtherException(m)))
        case Success(json) =>
          var rest := AfterDump(path, raw, data, json, w);
          Attempt([Record("has-config", "true")] + rest.outputs, rest.summaries, rest.stdout, rest.raised)
  }

  /** Lines 75-86 of the script, once `json.dumps` succeeded: the rest of the
      loaded triple, the loaded line and, for a non-empty mapping, its keys. */
  function AfterDump(path: string, raw: string, data: Yaml, json: string, w: World): Attempt
  {
    var written := [Record("config", json), Record("raw-yaml", raw)];
    var loaded := LoadedMessage(path);
    if !Truthy(data) then Attempt(written, [loaded], [loaded], None)
    else if !data.Mapping? then
      Attempt(written, [loaded], [loaded], Some(OtherException(w.describe(NoKeys(data)))))
    else
      var keys := KeysOf(data.entries);
      var k := FirstNonStrKey(keys);
      if k < |keys| then
        Attempt(written, [loaded, SectionsLine(keys)], [loaded],
                Some(OtherException(w.describe(KeyNotStr(k, keys[k])))))
      else
        Attempt(written, [loaded, SectionsLine(keys)],
                [loaded, "Config sections: " + Join(KeyTexts(keys), ", ")], None)
  }

  /** The message an `except` clause reports for the exception it caught. */
  function ErrorMessage(e: Exception): string
  {
    match e
    case YAMLError(m) => YamlErrorMessage(m)
    case OtherException(m) => UnexpectedMessage(m)
  }

  /** The outputs the `except` clauses append (none when nothing was raised). */
  function HandlerOutputs(raised: Option<Exception>): seq<Record>
  {
    if raised.None? then [] else AbsentTriple()
  }

  function HandlerSummaries(raised: Option<Exception>): seq<string>
  {
    match raised
    case None => []
    case Some(e) => [Cross + " " + ErrorMessage(e)]
  }

  function HandlerStdout(raised: Option<Exception>): seq<string>
  {
    match raised
    case None => []
    case Some(e) => ["::error::" + ErrorMessage(e)]
  }

  /** The exit status once the file was found: a YAML error follows the
      fail-fast policy, any other exception is fatal. */
  function ExitStatus(raised: Option<Exception>, fail: bool): int
  {
    match raised
    case None => 0
    case Some(YAMLError(_)) => if fail then 1 else 0
    case Some(OtherException(_)) => 1
  }

  /** Lines 53-66 of the script: the file does not exist. */
  function MissingEffects(path: string, fail: bool): Effects
  {
    var msg := MissingMessage(path);
    Effects(AbsentTriple(), [msg],
            ["::warning::" + msg + " (using defaults)"]
              + (if fail then ["::error::Config file required but not found: " + path] else []),
            if fail then 1 else 0)
  }

  /** Lines 68-109 of the script: the `try` statement and its handlers. */
  function FoundEffects(a: Attempt, fail: bool): Effects
  {
    Effects(a.outputs + HandlerOutputs(a.raised), a.summaries + HandlerSummaries(a.raised),
            a.stdout + HandlerStdout(a.raised), ExitStatus(a.raised, fail))
  }

  /** `main()`: what it appends to the output file, the summary and the
      console, and the status it exits with. */
  function Run(env: Env, w: World): Effects
  {
    var e := Branch(env, w);
    Effects(e.outputs, e.summaries, [LoadingLine(ConfigPath(env, w), w)] + e.stdout, e.exitCode)
  }

  /** The effects of the branch on the file's existence. */
  function Branch(env: Env, w: World): Effects
  {
    var path := ConfigPath(env, w);
    if !w.pathExists(path) then MissingEffects(path, FailOnMissing(env))
    else FoundEffects(TryBlock(path, w), FailOnMissing(env))
  }

  /** `Run` is the loading line followed by the branch's effects; one
      lemma per sink, each small enough for the solver. */
  lemma RunOutputs(env: Env, w: World, e: Effects, before: Option<string>, after: Option<string>)
    requires e == Branch(env, w)
    requires after == Appended(before, Serialize(e.outputs))
    ensures after == Appended(before, Serialize(Run(env, w).outputs))
  {
  }

  lemma RunSummaries(env: Env, w: World, e: Effects, before: Option<string>, after: Option<string>)
    requires e == Branch(env, w)
    requires after == Appended(before, SummaryText(e.summaries))
    ensures after == Appended(before, SummaryText(Run(env, w).summaries))
  {
  }

  lemma RunStdout(env: Env, w: World, e: Effects, before: seq<string>, after: seq<string>)
    requires e == Branch(env, w)
    requires after == before + [LoadingLine(ConfigPath(env, w), w)] + e.stdout
    ensures after == before + Run(env, w).stdout
  {
    LinesAssoc(before, LoadingLine(ConfigPath(env, w), w), e.stdout);
  }

  lemma LinesAssoc(before: seq<string>, line: string, more: seq<string>)
    ensures before + [line] + more == before + ([line] + more)
  {
  }

  lemma RunExit(env: Env, w: World, e: Effects)
    requires e == Branch(env, w)
    ensures e.exitCode == Run(env, w).exitCode
  {
  }

  /** `sink` after appending `text`; an absent sink stays absent. */
  function Appended(sink: Option<string>, text: string): Option<string>
  {
    match sink
    case None => None
    case Some(s) => Some(s + text)
  }

  lemma AppendedNothing(sink: Option<string>)
    ensures Appended(sink, "") == sink
  {
    if sink.Some? {
      assert sink.value + "" == sink.value;
    }
  }

  lemma AppendedTwice(sink: Option<string>, a: string, b: string)
    ensures Appended(Appended(sink, a), b) == Appended(sink, a + b)
  {
    if sink.Some? {
      assert (sink.value + a) + b == sink.value + (a + b);
    }
  }

  lemma SerializeThree(t: seq<Record>)
    requires |t| == 3
    ensures Serialize(t) == FormatRecord(t[0]) + FormatRecord(t[1]) + FormatRecord(t[2])
  {
    assert t[1..][1..][1..] == [];
    assert Serialize(t[1..][1..]) == FormatRecord(t[2]) + "";
  }

  lemma SerializeCons(r: Record, more: seq<Record>)
    ensures Serialize([r] + more) == FormatRecord(r) + Serialize(more)
  {
    assert ([r] + more)[1..] == more;
  }

  lemma SerializeTwo(r: Record, s: Record)
    ensures Serialize([r, s]) == FormatRecord(r) + FormatRecord(s)
  {
    assert [r, s][1..] == [s];
    SerializeOne(s);
  }

  lemma SerializeOne(r: Record)
    ensures Serialize([r]) == FormatRecord(r)
  {
    assert Serialize([r]) == FormatRecord(r) + "";
  }

  lemma SummaryTextOne(line: string)
    ensures SummaryText([line]) == SummaryEntry(line)
  {
    assert SummaryText([line]) == SummaryEntry(line) + "";
  }

  lemma SummaryTextTwo(first: string, second: string)
    ensures SummaryText([first, second]) == SummaryEntry(first) + SummaryEntry(second)
  {
    assert [first, second][1..] == [second];
    SummaryTextOne(second);
  }

  // ---------------------------------------------------------------------
  // The sinks a run appends to

  /** The step's environment, its output file and summary file (`None` when
      the variable that names it is unset or empty), and the lines printed to
      the console. */
  class StepSinks {
    const env: Env
    var output: Option<string>
    var summary: Option<string>
    var stdout: seq<string>

    /** The sinks as the process finds them: `outputFile` and `summaryFile`
        are the current contents of the files the variables name. */
    constructor (env: Env, outputFile: string, summaryFile: string)
      ensures this.env == env
      ensures output == (if EnvSet(env, "GITHUB_OUTPUT") then Some(outputFile) else None)
      ensures summary == (if EnvSet(env, "GITHUB_STEP_SUMMARY") then Some(summaryFile) else None)
      ensures stdout == []
    {
      this.env := env;
      output := if EnvSet(env, "GITHUB_OUTPUT") then Some(outputFile) else None;
      summary := if EnvSet(env, "GITHUB_STEP_SUMMARY") then Some(summaryFile) else None;
      stdout := [];
    }

    /** `write_output(name, value)` */
    method WriteOutput(name: string, value: string)
      modifies this
      ensures output == Appended(old(output), FormatRecord(Record(name, value)))
      ensures old(output).Some? && '\n' !in value ==>
        output == Some(old(output).value + name + "=" + value + "\n")
      ensures old(output).Some? && '\n' in value ==>
        output == Some(old(output).value + name + "<<EOF\n" + value + "\nEOF\n")
      ensures old(output).None? ==> output == None
      ensures summary == old(summary) && stdout == old(stdout)
    {
      if output.Some? {
        var record: string;
        if '\n' in value {
          var delimiter := Delimiter;
          record := name + "<<" + delimiter + "\n" + value + "\n" + delimiter + "\n";
          assert name + "<<" + delimiter + "\n" == name + "<<EOF\n";
          assert "\n" + delimiter + "\n" == "\nEOF\n";
          assert output.value + record == output.value + name + "<<EOF\n" + value + "\nEOF\n";
        } else {
          record := name + "=" + value + "\n";
          assert output.value + record == output.value + name + "=" + value + "\n";
        }
        output := Some(output.value + record);
      }
    }

    /** `write_summary(text)` */
    method WriteSummary(text: string)
      modifies this
      ensures summary == Appended(old(summary), SummaryEntry(text))
      ensures old(summary).Some? ==> summary == Some(old(summary).value + text + "\n")
      ensures old(summary).None? ==> summary == None
      ensures output == old(output) && stdout == old(stdout)
    {
      if summary.Some? {
        assert summary.value + (text + "\n") == summary.value + text + "\n";
        summary := Some(summary.value + (text + "\n"));
      }
    }

    /** `print(line)` */
    method Print(line: string)
      modifies this
      ensures stdout == old(stdout) + [line]
      ensures output == old(output) && summary == old(summary)
    {
      stdout := stdout + [line];
    }

    /** The records of the "absent configuration" triple. */
    method WriteAbsentTriple()
      modifies this
      ensures output == Appended(old(output), Serialize(AbsentTriple()))
      ensures summary == old(summary) && stdout == old(stdout)
    {
      WriteOutput("has-config", "false");
      WriteOutput("config", "{}");
      WriteOutput("raw-yaml", "");
      SerializeThree(AbsentTriple());
      var triple := AbsentTriple();
      AppendedTwice(old(output), FormatRecord(triple[0]), FormatRecord(triple[1]));
      AppendedTwice(old(output), FormatRecord(triple[0]) + FormatRecord(triple[1]), FormatRecord(triple[2]));
    }

    /** Lines 69-86 of the script: the body of the `try` statement. */
    method TryLoad(path: string, w: World) returns (raised: Option<Exception>)
      modifies this
      ensures raised == TryBlock(path, w).raised
      ensures output == Appended(old(output), Serialize(TryBlock(path, w).outputs))
      ensures summary == Appended(old(summary), SummaryText(TryBlock(path, w).summaries))
      ensures stdout == old(stdout) + TryBlock(path, w).stdout
    {
      var read := w.readText(path);
      if read.Failure? {
        AppendedNothing(output);
        AppendedNothing(summary);
        return Some(OtherException(read.error));
      }
      var raw := read.value;
      var loaded := w.safeLoad(raw);
      if loaded.Failure? {
        AppendedNothing(output);
        AppendedNothing(summary);
        return Some(loaded.error);
      }
      var data := Normalise(loaded.value);
      WriteOutput("has-config", "true");
      var dumped := w.jsonDumps(data);
      if dumped.Failure? {
        SerializeOne(Record("has-config", "true"));
        AppendedNothing(summary);
        return Some(OtherException(dumped.error));
      }
      raised := ReportLoaded(path, raw, data, dumped.value, w);
      ghost var rest := AfterDump(path, raw, data, dumped.value, w);
      SerializeCons(Record("has-config", "true"), rest.outputs);
      AppendedTwice(old(output), FormatRecord(Record("has-config", "true")), Serialize(rest.outputs));
    }

    /** Lines 75-86 of the script: the rest of the `try` body once the
        document was encoded. */
    method ReportLoaded(path: string, raw: string, data: Yaml, json: string, w: World)
      returns (raised: Option<Exception>)
      modifies this
      ensures raised == AfterDump(path, raw, data, json, w).raised
      ensures output == Appended(old(output), Serialize(AfterDump(path, raw, data, json, w).outputs))
      ensures summary == Appended(old(summary), SummaryText(AfterDump(path, raw, data, json, w).summaries))
      ensures stdout == old(stdout) + AfterDump(path, raw, data, json, w).stdout
    {
      WriteOutput("config", json);
      WriteOutput("raw-yaml", raw);
      SerializeTwo(Record("config", json), Record("raw-yaml", raw));
      AppendedTwice(old(output), FormatRecord(Record("config", json)), FormatRecord(Record("raw-yaml", raw)));
      var message := LoadedMessage(path);
      Print(message);
      WriteSummary(message);
      SummaryTextOne(message);
      raised := None;
      if Truthy(data) {
        if !data.Mapping? {
          return Some(OtherException(w.describe(NoKeys(data))));
        }
        var keys := KeysOf(data.entries);
        var sections := SectionsLine(keys);
        WriteSummary(sections);
        AppendedTwice(old(summary), SummaryEntry(message), SummaryEntry(sections));
        SummaryTextTwo(message, sections);
        var k := FirstNonStrKey(keys);
        if k < |keys| {
          return Some(OtherException(w.describe(KeyNotStr(k, keys[k]))));
        }
        Print("Config sections: " + Join(KeyTexts(keys), ", "));
      }
    }

    /** Lines 88-109 of the script: the `except` clauses. */
    method Handle(raised: Option<Exception>, failOnMissing: bool) returns (exitCode: int)
      modifies this
      ensures output == Appended(old(output), Serialize(HandlerOutputs(raised)))
      ensures summary == Appended(old(summary), SummaryText(HandlerSummaries(raised)))
      ensures stdout == old(stdout) + HandlerStdout(raised)
      ensures exitCode == ExitStatus(raised, failOnMissing)
    {
      match raised {
        case None =>
          AppendedNothing(output);
          AppendedNothing(summary);
          exitCode := 0;
        case Some(YAMLError(m)) =>
          var errorMsg := YamlErrorMessage(m);
          WriteAbsentTriple();
          Print("::error::" + errorMsg);
          WriteSummary(Cross + " " + errorMsg);
          SummaryTextOne(Cross + " " + errorMsg);
          exitCode := if failOnMissing then 1 else 0;
        case Some(OtherException(m)) =>
          var errorMsg := UnexpectedMessage(m);
          WriteAbsentTriple();
          Print("::error::" + errorMsg);
          WriteSummary(Cross + " " + errorMsg);
          SummaryTextOne(Cross + " " + errorMsg);
          exitCode := 1;
      }
    }

    /** Lines 53-66 of the script: the file does not exist. */
    method ReportMissing(path: string, failOnMissing: bool) returns (exitCode: int)
      modifies this
      ensures output == Appended(old(output), Serialize(MissingEffects(path, failOnMissing).outputs))
      ensures summary == Appended(old(summary), SummaryText(MissingEffects(path, failOnMissing).summaries))
      ensures stdout == old(stdout) + MissingEffects(path, failOnMissing).stdout
      ensures exitCode == MissingEffects(path, failOnMissing).exitCode
    {
      WriteAbsentTriple();
      var msg := MissingMessage(path);
      Print("::warning::" + msg + " (using defaults)");
      WriteSummary(msg);
      SummaryTextOne(msg);
      if failOnMissing {
        Print("::error::Config file required but not found: " + path);
        exitCode := 1;
      } else {
        exitCode := 0;
      }
    }

    /** Lines 68-109 of the script: the `try` statement and its handlers. */
    method LoadExisting(path: string, failOnMissing: bool, w: World) returns (exitCode: int)
      modifies this
      ensures output == Appended(old(output), Serialize(FoundEffects(TryBlock(path, w), failOnMissing).outputs))
      ensures summary == Appended(old(summary), SummaryText(FoundEffects(TryBlock(path, w), failOnMissing).summaries))
      ensures stdout == old(stdout) + FoundEffects(TryBlock(path, w), failOnMissing).stdout
      ensures exitCode == FoundEffects(TryBlock(path, w), failOnMissing).exitCode
    {
      ghost var a := TryBlock(path, w);
      var raised := TryLoad(path, w);
      exitCode := Handle(raised, failOnMissing);
      AppendedTwice(old(output), Serialize(a.outputs), Serialize(HandlerOutputs(raised)));
      SerializeAppend(a.outputs, HandlerOutputs(raised));
      AppendedTwice(old(summary), SummaryText(a.summaries), SummaryText(HandlerSummaries(raised)));
      SummaryTextAppend(a.summaries, HandlerSummaries(raised));
    }

    /** `main()`: one run of the script in this step's environment, against
        its sinks. */
    method Execute(w: World) returns (exitCode: int)
      modifies this
      ensures output == Appended(old(output), Serialize(Run(env, w).outputs))
      ensures summary == Appended(old(summary), SummaryText(Run(env, w).summaries))
      ensures stdout == old(stdout) + Run(env, w).stdout
      ensures exitCode == Run(env, w).exitCode
    {
      var configFile := w.pathText(EnvGet(env, "CONFIG_FILE", DefaultConfigFile));
      var failOnMissing := FailOnMissing(env);
      var loading := LoadingLine(configFile, w);
      Print(loading);
      ghost var e := Branch(env, w);
      if !w.pathExists(configFile) {
        exitCode := ReportMissing(configFile, failOnMissing);
      } else {
        exitCode := LoadExisting(configFile, failOnMissing, w);
      }
      RunOutputs(env, w, e, old(output), output);
      RunSummaries(env, w, e, old(summary), summary);
      RunStdout(env, w, e, old(stdout), stdout);
      RunExit(env, w, e);
    }
  }
}
