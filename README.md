# Repository configuration loader: a Dafny model

This project models `src/load_config.py`, the script behind a GitHub Actions
step. The script loads a repository's configuration file. By default that file
is `.github/repository-config.yml`; the `CONFIG_FILE` variable overrides it. The
script reports the file to the workflow in three ways:

- **Output records.** It appends `has-config`, `config` and `raw-yaml` to the
  file named by `GITHUB_OUTPUT`. A value without a line feed is written as
  `name=value`. A value with one is written as a heredoc block delimited by
  `EOF`.
- **Summary lines.** It appends lines to the file named by
  `GITHUB_STEP_SUMMARY`.
- **Console lines.** It prints lines, including `::warning::` and `::error::`
  annotations.

The script then exits with status 0 or 1. The status follows the
`FAIL_ON_MISSING` policy for a missing or unparsable file, and is always 1 for
an unexpected error.

The model has five modules:

- `Wrappers` holds `Option` and `Result`.
- `Text` covers line splitting, joining, and ASCII lower-casing.
- `OutputFormat` covers:
  - the record layout of the output file, with `Serialize`;
  - the summary layout, with `SummaryText`;
  - a reference reader of the output-file format, `ReadOutputFile`, which the
    writer is proved against.
- `LoadConfig` holds:
  - the specification of one run as a function, `Run(env, w)`, of the
    environment and an opaque `World`. The `World` stands for the file system,
    `yaml.safe_load`, `json.dumps`, path rendering and the messages of Python's
    own exceptions;
  - the class `StepSinks`. Its fields are the two sinks, `None` when the
    variable naming them is unset or empty, and the console. Its methods
    update those fields in place. `WriteOutput` models `write_output`,
    `WriteSummary` models `write_summary`, `Print` models `print`, and
    `Execute` models `main`. `Execute` is built from `ReportMissing` (the
    missing-file branch), `LoadExisting` (the `try` statement), `TryLoad`
    with `ReportLoaded` (the `try` body) and `Handle` (the `except`
    clauses). `WriteOutput`, `WriteSummary` and `Print` are proved to append
    exactly one record (`FormatRecord`), one summary line (`SummaryEntry`)
    or one console line. `Execute` and the branch methods are proved to
    append exactly what `Run` and its parts (`MissingEffects`, `TryBlock`,
    `FoundEffects`) say.
- `LoadConfigProperties` holds the properties of `Run`:
  - the four terminal states and their outputs;
  - the exit policy;
  - record order;
  - the values left in force;
  - the sections line;
  - the output file reading back.

Two behaviours of the code are easy to miss, and the model keeps both:

- **A run does not always write exactly three records.** A failure after parsing happens
  inside the `try` block, after `has-config=true` was written. Such a failure
  is one of:
  - `json.dumps` rejects the document;
  - the document is truthy but not a mapping, so `data.keys()` raises;
  - a key is not a string, so `', '.join(keys)` raises.
  The generic handler then writes the absent triple after it. The output file
  gets 4 or 6 records, and the run exits with status 1 (`RecordNamesInOrder`,
  `UnexpectedRun`).
- **`or {}` replaces every falsy document, not only an empty one.** `null`,
  `false`, `0`, `""` and `[]` all become `{}`.

## Model

| member | source | states |
|---|---|---|
| LoadConfig.StepSinks.constructor | src/load_config.py:26-27 | keeps the environment that `Execute` runs in; each sink is present exactly when its variable in that environment is set to a non-empty value; the console starts empty |
| LoadConfig.StepSinks.WriteOutput | src/load_config.py:24-34 | appends exactly `name=value\n` to the output file, or `name<<EOF\nvalue\nEOF\n` when the value has a line feed; with no output file nothing changes; the summary and console are untouched |
| LoadConfig.StepSinks.WriteSummary | src/load_config.py:37-42 | appends exactly `text + "\n"` to the summary file when there is one, and nothing otherwise; other sinks untouched |
| LoadConfig.StepSinks.Print | src/load_config.py:50 | appends one line to the console and leaves both files alone |
| LoadConfig.StepSinks.WriteAbsentTriple | src/load_config.py:54-56 | appends the serialisation of `has-config=false`, `config={}`, `raw-yaml=` (empty), in this order |
| LoadConfig.StepSinks.TryLoad | src/load_config.py:69-86 | performs the `try` body: appends exactly the records, summary lines and console lines `TryBlock` gives, and returns the exception it raised, if any |
| LoadConfig.StepSinks.ReportLoaded | src/load_config.py:74-86 | after encoding: writes `config`, `raw-yaml`, the loaded line and, for a truthy mapping, the sections line; raises when the document is truthy but not a mapping, or when a key is not a string |
| LoadConfig.StepSinks.Handle | src/load_config.py:88-109 | a YAML error writes the absent triple, the `Failed to parse YAML` line and exits by the policy; any other exception does the same with `Unexpected error` and status 1; no exception writes nothing and gives 0 |
| LoadConfig.StepSinks.ReportMissing | src/load_config.py:53-66 | a missing file writes the absent triple, the warning and its summary line, and exits 1 with an extra error line exactly when the policy demands the file |
| LoadConfig.StepSinks.LoadExisting | src/load_config.py:68-109 | the `try` statement with its handlers appends what the body wrote followed by what the handler wrote, and exits with the handler's status |
| LoadConfig.StepSinks.Execute | src/load_config.py:45-109 | one run of `main` appends to each sink exactly what `Run` specifies and returns its exit status |
| LoadConfig.KeysOf | src/load_config.py:82 | the key list has one key per entry, in parse order |
| LoadConfig.Quoted | src/load_config.py:84 | the i-th quoted key is the i-th key's text between backquotes |
| LoadConfig.KeyTexts | src/load_config.py:86 | the i-th joined text is the i-th key's text |
| LoadConfig.FirstNonStrKey | src/load_config.py:86 | returns the first position whose key is not a string (the one `', '.join` fails on), or the length when all keys are strings |
| Text.AsciiLower | src/load_config.py:48 | lower-casing keeps the length |
| Text.AsciiLowerAt | src/load_config.py:48 | lower-casing maps each character independently |
| LoadConfigProperties.FailOnMissingIff | src/load_config.py:48 | the policy holds if and only if `FAIL_ON_MISSING` is set and spells `true` in any case; an unset variable means `false` |
| LoadConfigProperties.ExitCodePolicy | src/load_config.py:62-66 | status is 0 after a load; by the policy after a missing file or a YAML error; 1 after any other failure |
| LoadConfigProperties.MissingRun | src/load_config.py:53-66 | a missing file gives exactly the absent triple, the warning summary and the policy's status |
| LoadConfigProperties.YamlFailureRun | src/load_config.py:88-100 | a parse error gives exactly the absent triple, one summary line with the parser's message and the policy's status |
| LoadConfigProperties.UnexpectedRun | src/load_config.py:101-109 | any other failure exits 1 and ends with the absent triple, which is the whole output unless the failure came after parsing; the summary ends with `❌ Unexpected error:` and the exception's message, and before that holds nothing for an early failure, and for a late one nothing (encoding failed), the loaded line (not a mapping) or the loaded line and the sections line (a key that is not a string) |
| LoadConfigProperties.LateSummaries | src/load_config.py:77-86 | the summary lines a failure after parsing leaves behind, one case per cause: none, the loaded line, or the loaded line and the sections line |
| LoadConfigProperties.ParsedRun | src/load_config.py:69-86 | a successful load writes `has-config=true`, the JSON of the normalised document and the raw text, exits 0, and writes the sections summary line exactly when the mapping is non-empty |
| LoadConfigProperties.FalsyDocumentIsEmptyMapping | src/load_config.py:71-79 | a falsy document is reported as the encoding of `{}`, with no sections line |
| LoadConfigProperties.TryFacts | src/load_config.py:69-86 | the `try` body raises nothing if and only if the file loads, a YAML error if and only if parsing fails; it writes something exactly when it got past parsing, and what it wrote is nothing, `has-config=true` alone, or the whole loaded triple |
| LoadConfigProperties.FoundRun | src/load_config.py:68-109 | an existing file's run is the `try` body's effects followed by its handler's |
| LoadConfigProperties.FirstNonStrKeyFound | src/load_config.py:86 | the join fails if and only if some key of the mapping is not a string |
| LoadConfigProperties.RecordNamesInOrder | src/load_config.py:53-109 | every run writes `has-config`, `config`, `raw-yaml` in order, three records exactly when no failure came after parsing, otherwise 4 or 6 |
| LoadConfigProperties.AbsentTripleInvariant | src/load_config.py:54-56 | wherever `has-config=false` appears it is followed by `config={}` and an empty `raw-yaml` |
| LoadConfigProperties.EffectiveOutputs | src/load_config.py:53-109 | the last value of `has-config` is `true` if and only if the file loaded; then `config` and `raw-yaml` are the JSON and the raw text, otherwise `{}` and empty |
| LoadConfigProperties.UnexpectedOrAbsent | src/load_config.py:53-109 | every run that does not load ends with the absent triple |
| LoadConfigProperties.LastOfTriple | src/load_config.py:53-109 | after a triple, the values in force are the triple's, whatever came before |
| LoadConfigProperties.SectionsListKeysInOrder | src/load_config.py:84 | the joined list shows each key in backquotes, in parse order, separated by `, `, with nothing after the last |
| LoadConfigProperties.OutputFileReadsBack | src/load_config.py:24-34 | a run's records, appended to a well-formed output file, read back as the earlier records followed by the run's own, when the raw text has no `EOF` line |
| OutputFormat.ReadBack | src/load_config.py:30-34 | serialised records whose names are valid and whose block values contain no `EOF` line read back as themselves, in order |
| OutputFormat.ReadBackRecord | src/load_config.py:30-34 | one record in either layout reads back as itself, whatever follows it |
| OutputFormat.SerializeAppend | src/load_config.py:28 | appending records one call at a time serialises like appending them together |
| OutputFormat.SummaryTextAppend | src/load_config.py:41-42 | appending summary lines one call at a time is the same as appending them together |
| OutputFormat.DelimiterLineNeverReadsBack | src/load_config.py:30-32 | a block value with any line reading exactly `EOF`, whatever follows its record, never reads back as itself: if the file reads at all, its first record has the same name and a strictly shorter value |
| OutputFormat.ReadsBackIffReadable | src/load_config.py:30-34 | a record with a valid name, written on its own, reads back as itself if and only if its value has no line feed or no line equal to `EOF` |
| OutputFormat.BlockStopsEarly | src/load_config.py:31-32 | reading a block stops at the first line equal to `EOF`: it reads the lines of the value before that line, none of which is `EOF`, and the joined value is shorter than the one written |
| OutputFormat.DelimiterLineBreaksReadBack | src/load_config.py:31-32 | for a value shaped `a`, `EOF`, `b` (one line each, `a` not `EOF`, `b` without `=` or `<`) the whole file fails to read: the block ends early and the writer's closing `EOF` line is malformed |
| Text.JoinConsLength | src/load_config.py:30-32 | joining one more part in front adds at most that part and one separator |
| LoadConfig.FailOnMissing | src/load_config.py:48 | no contract of its own; `FailOnMissingIff` proves it holds if and only if `FAIL_ON_MISSING` spells `true` in any case |
| LoadConfig.Truthy | src/load_config.py:81 | no contract of its own; `ParsedRun` proves that a loaded document is a mapping and that the sections line is written exactly when the mapping is non-empty |
| LoadConfig.Normalise | src/load_config.py:71 | no contract of its own; `FalsyDocumentIsEmptyMapping` proves every falsy document is reported as `{}`, and `ParsedRun` that the loaded `config` is the encoding of the normalised document |
| OutputFormat.FormatRecord | src/load_config.py:30-34 | no contract of its own; `ReadBackRecord` and `ReadsBackIffReadable` prove that its layout reads back as the record exactly when the value has no `EOF` line |
| LoadConfig.TryBlock | src/load_config.py:69-86 | no contract of its own; `TryFacts` proves which exception it raises in which terminal state and that it writes nothing, `has-config=true` alone or the loaded triple |
| LoadConfig.AfterDump | src/load_config.py:74-86 | no contract of its own; `ParsedRun` states its outputs and summary lines when nothing is raised; when it raises, `TryFacts` states its outputs and `LateSummaries` its summary lines |
| LoadConfig.MissingEffects | src/load_config.py:53-66 | no contract of its own; `MissingRun` states its records, summary line and status |
| LoadConfig.FoundEffects | src/load_config.py:68-109 | no contract of its own; `FoundRun` proves it is the `try` body's effects followed by the handler's |
| LoadConfig.ExitStatus | src/load_config.py:97-109 | no contract of its own; `ExitCodePolicy` proves the status for every terminal state |
| LoadConfig.Branch | src/load_config.py:53-109 | no contract of its own; `MissingRun`, `YamlFailureRun`, `UnexpectedRun` and `ParsedRun` state its effects in each terminal state |
| LoadConfig.Run | src/load_config.py:45-109 | no contract of its own; `StepSinks.Execute` is proved against it, and `RecordNamesInOrder`, `AbsentTripleInvariant` and `EffectiveOutputs` state what every run writes |
| Text.JoinLines | src/load_config.py:30-32 | splitting a value into lines and joining them with line feeds gives the value back |
| Text.JoinPart | src/load_config.py:84 | each joined part sits at its offset, followed by the separator or the end of the text |

## Left out

- The automatic installation of PyYAML (src/load_config.py:15-21) is left out. It is an import-time side effect that runs `pip`.
- YAML parsing, JSON encoding, path rendering (`str(Path(x))`, `absolute()`), `exists()`, `read_text()` and the messages of Python's exceptions are opaque functions of `World`. The model says nothing about what they compute. The other behaviours the model leaves out are listed below.
- An exception from `Path.exists()` (src/load_config.py:53) or `Path.absolute()` (src/load_config.py:50) is left out. `exists()` re-raises any `OSError` other than "not found", for example a `PermissionError` for a path under an unreadable directory. Both calls come before the `try`, so in that case the script stops with a traceback and status 1, having written no record and no summary line. `World.pathExists` is a plain `bool` and `World.absolute` a plain string, so the model has no such run. `RecordNamesInOrder`, `UnexpectedOrAbsent`, `AbsentTripleInvariant` and `EffectiveOutputs` hold for every run that gets past these two calls.
- Newline translation is left out. Both sinks are opened in text mode (src/load_config.py:28, 41), so on a Windows runner every `\n` is written as `\r\n`. `WriteOutput`, `WriteSummary`, `FormatRecord` and `SummaryEntry` state the `\n` layout that a Linux or macOS runner writes.
- Failures while opening or appending to the output or summary file are left out. Such an `OSError` could escape the handlers or reach the generic one. The model treats sink writes as infallible.
- Both variables naming the same file is left out. The model keeps the two sinks as separate values, so it does not capture that aliasing.
- Text.AsciiLower: lower-cases ASCII letters only, where Python's `str.lower()` lowers all of Unicode. For the policy this makes no difference: no non-ASCII character lowers to a letter of `true`, which is all `FailOnMissingIff` depends on.
- OutputFormat.ReadOutputFile: splits lines on `\n` only. It models the writer's own layout, not the runner's tolerance of `\r\n`.
- LoadConfigProperties.OutputFileReadsBack: requires that the raw text and its encoding have no line equal to `EOF`. The writer uses a fixed delimiter, so such a value cannot read back; `OutputFormat.DelimiterLineNeverReadsBack` proves this for every such value.
- YAML tags, anchors, float `nan`/`inf` and the exact set of scalar types are left out. `Yaml` models the values `safe_load` returns only as far as the script inspects them: truthiness, being a mapping, and key order and type.
- Exceptions raised by `print` and by `sys.exit` itself are left out.
