/** What a run of the script promises, stated over `LoadConfig.Run`. */
module LoadConfigProperties {
  import opened Wrappers
  import opened Text
  import opened OutputFormat
  import opened LoadConfig

  // ---------------------------------------------------------------------
  // The fail-fast flag

  /** The policy flag holds exactly when `FAIL_ON_MISSING` is set to "true"
      in some letter case; unset means false. */
  lemma FailOnMissingIff(env: Env)
    ensures FailOnMissing(env) <==> "FAIL_ON_MISSING" in env && IsTrueWord(env["FAIL_ON_MISSING"])
  {
    var v := EnvGet(env, "FAIL_ON_MISSING", "false");
    var lower := AsciiLower(v);
    if |v| == 4 {
      forall i | 0 <= i < 4 ensures lower[i] == LowerChar(v[i]) {
        AsciiLowerAt(v, i);
      }
      assert lower == [LowerChar(v[0]), LowerChar(v[1]), LowerChar(v[2]), LowerChar(v[3])];
    }
    if "FAIL_ON_MISSING" !in env {
      assert |v| == 5;
    }
  }

  // ---------------------------------------------------------------------
  // The terminal states

  /** Where one pass of the state machine ends. */
  datatype Outcome = Missing | Parsed | YamlFailure | Unexpected

  /** Some key of the mapping is not a `str`. */
  predicate HasNonStrKey(data: Yaml)
    requires data.Mapping?
  {
    exists i :: 0 <= i < |data.entries| && data.entries[i].0.OtherKey?
  }

  /** The terminal state a run reaches, read off the inputs alone. */
  function OutcomeOf(env: Env, w: World): Outcome
  {
    var path := ConfigPath(env, w);
    if !w.pathExists(path) then Missing
    else match w.readText(path)
      case Failure(_) => Unexpected
      case Success(raw) =>
        match w.safeLoad(raw)
        case Failure(YAMLError(_)) => YamlFailure
        case Failure(OtherException(_)) => Unexpected
        case Success(doc) =>
          var data := Normalise(doc);
          if w.jsonDumps(data).Failure? then Unexpected
          else if Truthy(data) && (!data.Mapping? || HasNonStrKey(data)) then Unexpected
          else Parsed
  }

  /** The file was read and parsed and the failure came after the first
      output record was written. */
  predicate LateFailure(env: Env, w: World)
  {
    var path := ConfigPath(env, w);
    && w.pathExists(path)
    && w.readText(path).Success?
    && w.safeLoad(w.readText(path).value).Success?
    && OutcomeOf(env, w) == Unexpected
  }

  lemma FirstNonStrKeyFound(data: Yaml)
    requires data.Mapping?
    ensures FirstNonStrKey(KeysOf(data.entries)) < |data.entries| <==> HasNonStrKey(data)
  {
    var keys := KeysOf(data.entries);
    var k := FirstNonStrKey(keys);
    if HasNonStrKey(data) {
      var i :| 0 <= i < |data.entries| && data.entries[i].0.OtherKey?;
      assert keys[i].OtherKey?;
    }
  }

  /** The `try` body, once the file exists: what it raises tells the
      outcome apart, and it writes nothing, only `has-config=true`, or the
      whole loaded triple. */
  lemma TryFacts(env: Env, w: World)
    requires w.pathExists(ConfigPath(env, w))
    ensures var a := TryBlock(ConfigPath(env, w), w);
      && (a.raised.None? <==> OutcomeOf(env, w) == Parsed)
      && (a.raised.Some? && a.raised.value.YAMLError? <==> OutcomeOf(env, w) == YamlFailure)
      && (a.outputs != [] <==> LateFailure(env, w) || OutcomeOf(env, w) == Parsed)
      && (a.outputs == [] || a.outputs == [Record("has-config", "true")] || Loaded(a.outputs))
  {
    var path := ConfigPath(env, w);
    var a := TryBlock(path, w);
    if w.readText(path).Success? {
      var raw := w.readText(path).value;
      if w.safeLoad(raw).Success? {
        var data := Normalise(w.safeLoad(raw).value);
        if w.jsonDumps(data).Success? {
          LoadedTripleParts(w.jsonDumps(data).value, raw);
          if Truthy(data) && data.Mapping? {
            FirstNonStrKeyFound(data);
          }
        }
      }
    }
  }

  /** The three records of a successful load, as written. */
  predicate Loaded(outs: seq<Record>)
  {
    |outs| == 3 && outs[0] == Record("has-config", "true")
    && outs[1].name == "config" && outs[2].name == "raw-yaml"
  }

  /** The effects of a run once the file exists, in terms of the `try` body. */
  lemma FoundRun(env: Env, w: World)
    requires w.pathExists(ConfigPath(env, w))
    ensures var a := TryBlock(ConfigPath(env, w), w);
      && Run(env, w).outputs == a.outputs + HandlerOutputs(a.raised)
      && Run(env, w).summaries == a.summaries + HandlerSummaries(a.raised)
      && Run(env, w).exitCode == ExitStatus(a.raised, FailOnMissing(env))
  {
  }

  /** The exit status: 0 after a successful load; the fail-fast policy
      after a missing file or a YAML syntax error; 1 after anything else. */
  lemma ExitCodePolicy(env: Env, w: World)
    ensures Run(env, w).exitCode == match OutcomeOf(env, w)
      case Parsed => 0
      case Missing => if FailOnMissing(env) then 1 else 0
      case YamlFailure => if FailOnMissing(env) then 1 else 0
      case Unexpected => 1
  {
    if w.pathExists(ConfigPath(env, w)) {
      TryFacts(env, w);
      FoundRun(env, w);
    }
  }

  /** A missing file: the absent triple, the missing-file summary line, and
      status 1 exactly when fail-fast is on. */
  lemma MissingRun(env: Env, w: World)
    requires OutcomeOf(env, w) == Missing
    ensures Run(env, w).outputs == AbsentTriple()
    ensures Run(env, w).summaries == [MissingMessage(ConfigPath(env, w))]
    ensures Run(env, w).exitCode == if FailOnMissing(env) then 1 else 0
  {
  }

  /** A YAML syntax error: the absent triple, one summary line carrying the
      parser's message, and the fail-fast policy for the status. */
  lemma YamlFailureRun(env: Env, w: World)
    requires OutcomeOf(env, w) == YamlFailure
    ensures var raw := w.readText(ConfigPath(env, w)).value;
      && w.safeLoad(raw).Failure? && w.safeLoad(raw).error.YAMLError?
      && Run(env, w).outputs == AbsentTriple()
      && Run(env, w).summaries == [Cross + " " + YamlErrorMessage(w.safeLoad(raw).error.message)]
      && Run(env, w).exitCode == if FailOnMissing(env) then 1 else 0
  {
    FoundRun(env, w);
    ExitCodePolicy(env, w);
  }

  /** Any other failure: the run ends with the absent triple and status 1,
      whatever the policy, and its last summary line reports the exception's
      message. Only a failure after the file was parsed leaves records and
      summary lines of the loaded configuration before those. */
  lemma UnexpectedRun(env: Env, w: World)
    requires OutcomeOf(env, w) == Unexpected
    ensures Run(env, w).exitCode == 1
    ensures |Run(env, w).outputs| >= 3
    ensures Run(env, w).outputs[|Run(env, w).outputs| - 3..] == AbsentTriple()
    ensures !LateFailure(env, w) ==> Run(env, w).outputs == AbsentTriple()
    ensures var a := TryBlock(ConfigPath(env, w), w);
      && a.raised.Some? && a.raised.value.OtherException?
      && Run(env, w).summaries == a.summaries + [Cross + " " + UnexpectedMessage(a.raised.value.message)]
    ensures !LateFailure(env, w) ==> TryBlock(ConfigPath(env, w), w).summaries == []
    ensures LateFailure(env, w) ==>
      var path := ConfigPath(env, w);
      var data := Normalise(w.safeLoad(w.readText(path).value).value);
      var before := TryBlock(path, w).summaries;
      && (w.jsonDumps(data).Failure? ==> before == [])
      && (w.jsonDumps(data).Success? && !data.Mapping? ==> before == [LoadedMessage(path)])
      && (w.jsonDumps(data).Success? && data.Mapping? ==>
            HasNonStrKey(data) && before == [LoadedMessage(path), SectionsLine(KeysOf(data.entries))])
  {
    ExitCodePolicy(env, w);
    TryFacts(env, w);
    FoundRun(env, w);
    if LateFailure(env, w) {
      LateSummaries(env, w);
    }
  }

  /** The summary lines a failure after parsing leaves: none when encoding
      failed, the loaded line when the document has no keys, and the loaded
      line and the sections line when a key is not a string. */
  lemma LateSummaries(env: Env, w: World)
    requires LateFailure(env, w)
    ensures var path := ConfigPath(env, w);
      var data := Normalise(w.safeLoad(w.readText(path).value).value);
      var before := TryBlock(path, w).summaries;
      && (w.jsonDumps(data).Failure? ==> before == [])
      && (w.jsonDumps(data).Success? && !data.Mapping? ==> before == [LoadedMessage(path)])
      && (w.jsonDumps(data).Success? && data.Mapping? ==>
            HasNonStrKey(data) && before == [LoadedMessage(path), SectionsLine(KeysOf(data.entries))])
  {
    var path := ConfigPath(env, w);
    var data := Normalise(w.safeLoad(w.readText(path).value).value);
    if w.jsonDumps(data).Success? && data.Mapping? {
      FirstNonStrKeyFound(data);
    }
  }

  /** A successful load: `has-config=true`, the JSON of the normalised
      document, the raw text; status 0; the loaded line and, exactly when
      the mapping is non-empty, the sections line. */
  lemma ParsedRun(env: Env, w: World)
    requires OutcomeOf(env, w) == Parsed
    ensures var path := ConfigPath(env, w);
      && w.readText(path).Success?
      && var raw := w.readText(path).value;
      && w.safeLoad(raw).Success?
      && var data := Normalise(w.safeLoad(raw).value);
      && w.jsonDumps(data).Success?
      && data.Mapping?
      && Run(env, w).outputs == LoadedTriple(w.jsonDumps(data).value, raw)
      && Run(env, w).exitCode == 0
      && Run(env, w).summaries
         == [LoadedMessage(path)] + (if data.entries != [] then [SectionsLine(KeysOf(data.entries))] else [])
  {
    var path := ConfigPath(env, w);
    var raw := w.readText(path).value;
    var data := Normalise(w.safeLoad(raw).value);
    FoundRun(env, w);
    LoadedTripleParts(w.jsonDumps(data).value, raw);
    assert Truthy(data) <==> data.entries != [];
  }

  /** An empty or falsy document is reported as the encoding of `{}`, and
      as `{}` itself when the encoder renders an empty mapping so. */
  lemma FalsyDocumentIsEmptyMapping(env: Env, w: World)
    requires OutcomeOf(env, w) == Parsed
    requires !Truthy(w.safeLoad(w.readText(ConfigPath(env, w)).value).value)
    requires w.jsonDumps(Mapping([])) == Success("{}")
    ensures Run(env, w).outputs[1] == Record("config", "{}")
    ensures Run(env, w).summaries == [LoadedMessage(ConfigPath(env, w))]
  {
    ParsedRun(env, w);
  }

  // ---------------------------------------------------------------------
  // The output records of a run

  function Names(recs: seq<Record>): (names: seq<string>)
    ensures |names| == |recs|
    ensures forall i :: 0 <= i < |recs| ==> names[i] == recs[i].name
  {
    if recs == [] then [] else [recs[0].name] + Names(recs[1..])
  }

  const TripleNames: seq<string> := ["has-config", "config", "raw-yaml"]

  /** Every run writes `has-config`, `config`, `raw-yaml` in this order, as
      exactly three records unless a failure after parsing made the handler
      write the absent triple after part or all of the loaded one. */
  lemma RecordNamesInOrder(env: Env, w: World)
    ensures var names := Names(Run(env, w).outputs);
      || (!LateFailure(env, w) && names == TripleNames)
      || (LateFailure(env, w) && names == ["has-config"] + TripleNames)
      || (LateFailure(env, w) && names == TripleNames + TripleNames)
    ensures |Run(env, w).outputs| == 3 <==> !LateFailure(env, w)
  {
    var path := ConfigPath(env, w);
    if w.pathExists(path) {
      var a := TryBlock(path, w);
      TryFacts(env, w);
      FoundRun(env, w);
      NamesAfterTry(a.outputs, HandlerOutputs(a.raised));
    } else {
      assert Names(AbsentTriple()) == TripleNames;
    }
  }

  /** The names of what the `try` body wrote followed by what a handler wrote. */
  lemma NamesAfterTry(written: seq<Record>, handled: seq<Record>)
    requires written == [] || written == [Record("has-config", "true")] || Loaded(written)
    requires handled == [] || handled == AbsentTriple()
    requires written != [] || handled != []
    requires handled == [] ==> Loaded(written)
    ensures written == [] ==> Names(written + handled) == TripleNames
    ensures handled == [] ==> Names(written + handled) == TripleNames
    ensures written == [Record("has-config", "true")] && handled != [] ==>
      Names(written + handled) == ["has-config"] + TripleNames
    ensures Loaded(written) && handled != [] ==> Names(written + handled) == TripleNames + TripleNames
  {
    assert Names(AbsentTriple()) == TripleNames;
    if written == [] {
      assert written + handled == handled;
    } else if handled == [] {
      assert written + handled == written;
    }
  }

  /** Every `has-config=false` record is followed by `config={}` and an
      empty `raw-yaml`. */
  lemma AbsentTripleInvariant(env: Env, w: World, i: nat)
    requires i < |Run(env, w).outputs| && Run(env, w).outputs[i] == Record("has-config", "false")
    ensures i + 2 < |Run(env, w).outputs|
    ensures Run(env, w).outputs[i + 1] == Record("config", "{}")
    ensures Run(env, w).outputs[i + 2] == Record("raw-yaml", "")
  {
    var path := ConfigPath(env, w);
    if w.pathExists(path) {
      var a := TryBlock(path, w);
      TryFacts(env, w);
      FoundRun(env, w);
      AbsentAfterTry(a.outputs, HandlerOutputs(a.raised), i);
    }
  }

  /** In what the `try` body and a handler wrote, `has-config=false` only
      starts the absent triple. */
  lemma AbsentAfterTry(written: seq<Record>, handled: seq<Record>, i: nat)
    requires written == [] || written == [Record("has-config", "true")] || Loaded(written)
    requires handled == [] || handled == AbsentTriple()
    requires i < |written + handled| && (written + handled)[i] == Record("has-config", "false")
    ensures i + 2 < |written + handled|
    ensures (written + handled)[i + 1] == Record("config", "{}")
    ensures (written + handled)[i + 2] == Record("raw-yaml", "")
  {
  }

  /** The value of the last record named `name`: the one a reader that lets
      later records override earlier ones ends up with. */
  function LastValue(recs: seq<Record>, name: string): Option<string>
  {
    if recs == [] then None
    else if recs[|recs| - 1].name == name then Some(recs[|recs| - 1].value)
    else LastValue(recs[..|recs| - 1], name)
  }

  /** The last three records settle the three names. */
  lemma LastOfTriple(prefix: seq<Record>, t: seq<Record>)
    requires |t| == 3 && Names(t) == TripleNames
    ensures LastValue(prefix + t, "has-config") == Some(t[0].value)
    ensures LastValue(prefix + t, "config") == Some(t[1].value)
    ensures LastValue(prefix + t, "raw-yaml") == Some(t[2].value)
  {
    var s := prefix + t;
    var s2 := prefix + t[..2];
    var s1 := prefix + t[..1];
    assert s[..|s| - 1] == s2;
    assert s2[..|s2| - 1] == s1;
    assert s[|s| - 1] == t[2] && s2[|s2| - 1] == t[1] && s1[|s1| - 1] == t[0];
    assert t[2].name == "raw-yaml" && t[1].name == "config" && t[0].name == "has-config";
    assert "raw-yaml" != "has-config" && "raw-yaml" != "config" && "config" != "has-config" by {
      assert |"raw-yaml"| != |"has-config"| && |"config"| != |"has-config"|;
      assert "raw-yaml"[0] != "config"[0];
    }
    assert LastValue(s, "config") == LastValue(s2, "config");
    assert LastValue(s, "has-config") == LastValue(s2, "has-config") == LastValue(s1, "has-config");
  }

  /** The values a run leaves in force: `has-config` is "true" exactly after
      a successful load, and then `config` and `raw-yaml` are the encoded
      document and the raw text; otherwise they are "false", "{}" and "". */
  lemma EffectiveOutputs(env: Env, w: World)
    ensures var outs := Run(env, w).outputs;
      && (LastValue(outs, "has-config") == Some("true") <==> OutcomeOf(env, w) == Parsed)
      && (LastValue(outs, "has-config") == Some("false") <==> OutcomeOf(env, w) != Parsed)
      && (OutcomeOf(env, w) != Parsed ==>
            LastValue(outs, "config") == Some("{}") && LastValue(outs, "raw-yaml") == Some(""))
      && (OutcomeOf(env, w) == Parsed ==>
            var raw := w.readText(ConfigPath(env, w)).value;
            var data := Normalise(w.safeLoad(raw).value);
            LastValue(outs, "config") == Some(w.jsonDumps(data).value)
            && LastValue(outs, "raw-yaml") == Some(raw))
  {
    if OutcomeOf(env, w) == Parsed {
      EffectiveAfterLoad(env, w);
    } else {
      EffectiveAfterFailure(env, w);
    }
  }

  lemma EffectiveAfterLoad(env: Env, w: World)
    requires OutcomeOf(env, w) == Parsed
    ensures var outs := Run(env, w).outputs;
      var raw := w.readText(ConfigPath(env, w)).value;
      var data := Normalise(w.safeLoad(raw).value);
      && LastValue(outs, "has-config") == Some("true")
      && LastValue(outs, "config") == Some(w.jsonDumps(data).value)
      && LastValue(outs, "raw-yaml") == Some(raw)
  {
    ParsedRun(env, w);
    var raw := w.readText(ConfigPath(env, w)).value;
    var data := Normalise(w.safeLoad(raw).value);
    var t := LoadedTriple(w.jsonDumps(data).value, raw);
    assert Names(t) == TripleNames;
    LastOfTriple([], t);
    assert [] + t == t;
  }

  lemma EffectiveAfterFailure(env: Env, w: World)
    requires OutcomeOf(env, w) != Parsed
    ensures var outs := Run(env, w).outputs;
      && LastValue(outs, "has-config") == Some("false")
      && LastValue(outs, "config") == Some("{}")
      && LastValue(outs, "raw-yaml") == Some("")
  {
    var outs := Run(env, w).outputs;
    UnexpectedOrAbsent(env, w);
    var n := |outs|;
    assert Names(AbsentTriple()) == TripleNames;
    LastOfTriple(outs[..n - 3], AbsentTriple());
    assert outs == outs[..n - 3] + outs[n - 3..];
  }

  /** Every run that does not load the configuration ends with the absent triple. */
  lemma UnexpectedOrAbsent(env: Env, w: World)
    requires OutcomeOf(env, w) != Parsed
    ensures |Run(env, w).outputs| >= 3
    ensures Run(env, w).outputs[|Run(env, w).outputs| - 3..] == AbsentTriple()
  {
    match OutcomeOf(env, w)
    case Missing => MissingRun(env, w);
    case YamlFailure => YamlFailureRun(env, w);
    case Unexpected => UnexpectedRun(env, w);
  }

  // ---------------------------------------------------------------------
  // The summary line of sections

  /** The joined keys list every key, in backquotes, in parse order, with
      ", " between neighbours and nothing after the last. */
  lemma SectionsListKeysInOrder(keys: seq<Key>, i: nat)
    requires i < |keys|
    ensures var list := Join(Quoted(keys), ", ");
      var start := Offset(Quoted(keys), ", ", i);
      var end := start + |Display(keys[i])| + 2;
      && end <= |list|
      && list[start..end] == "`" + Display(keys[i]) + "`"
      && (i + 1 < |keys| ==>
            end + 2 == Offset(Quoted(keys), ", ", i + 1) <= |list| && list[end..end + 2] == ", ")
      && (i + 1 == |keys| ==> end == |list|)
  {
    var part := "`" + Display(keys[i]) + "`";
    assert |part| == |Display(keys[i])| + 2;
    JoinPart(Quoted(keys), ", ", i, part);
  }

  // ---------------------------------------------------------------------
  // Reading the output file back

  /** A value the writer's block layout keeps intact. */
  predicate BlockSafe(v: string)
  {
    '\n' in v ==> Delimiter !in Lines(v)
  }

  /** The raw text and its encoding, whenever the run gets to them, are
      block-safe (a JSON encoding has no line feed at all). */
  predicate ValuesBlockSafe(env: Env, w: World)
  {
    var path := ConfigPath(env, w);
    w.readText(path).Success? ==>
      var raw := w.readText(path).value;
      && BlockSafe(raw)
      && (w.safeLoad(raw).Success? && w.jsonDumps(Normalise(w.safeLoad(raw).value)).Success? ==>
            BlockSafe(w.jsonDumps(Normalise(w.safeLoad(raw).value)).value))
  }

  /** When the raw text has no line `EOF`, what a run appends to an output
      file written in the same format reads back as the earlier records
      followed by the run's own, in order. */
  lemma OutputFileReadsBack(env: Env, w: World, earlier: seq<Record>)
    requires ValuesBlockSafe(env, w)
    requires forall i :: 0 <= i < |earlier| ==> Readable(earlier[i])
    ensures ReadOutputFile(Serialize(earlier) + Serialize(Run(env, w).outputs))
         == Some(earlier + Run(env, w).outputs)
  {
    var outs := Run(env, w).outputs;
    forall i | 0 <= i < |outs| ensures Readable(outs[i]) {
      AllReadable(env, w, i);
    }
    ReadBackAll(earlier, outs);
  }

  lemma ReadBackAll(earlier: seq<Record>, later: seq<Record>)
    requires forall i :: 0 <= i < |earlier| ==> Readable(earlier[i])
    requires forall i :: 0 <= i < |later| ==> Readable(later[i])
    ensures ReadOutputFile(Serialize(earlier) + Serialize(later)) == Some(earlier + later)
  {
    SerializeAppend(earlier, later);
    var all := earlier + later;
    assert forall i :: 0 <= i < |all| ==> Readable(all[i]) by {
      forall i | 0 <= i < |all| ensures Readable(all[i]) {
        if i >= |earlier| {
          assert all[i] == later[i - |earlier|];
        }
      }
    }
    ReadBack(all, "");
    assert Serialize(all) + "" == Serialize(all);
    assert all + [] == all;
  }

  lemma AllReadable(env: Env, w: World, i: nat)
    requires ValuesBlockSafe(env, w)
    requires i < |Run(env, w).outputs|
    ensures Readable(Run(env, w).outputs[i])
  {
    var path := ConfigPath(env, w);
    if w.pathExists(path) {
      var a := TryBlock(path, w);
      FoundRun(env, w);
      TryReadable(env, w);
      ReadableAfterTry(a.outputs, HandlerOutputs(a.raised), i);
    } else {
      AbsentReadable();
    }
  }

  /** Every record the `try` body writes reads back as itself. */
  lemma TryReadable(env: Env, w: World)
    requires ValuesBlockSafe(env, w)
    requires w.pathExists(ConfigPath(env, w))
    ensures var written := TryBlock(ConfigPath(env, w), w).outputs;
      forall j :: 0 <= j < |written| ==> Readable(written[j])
  {
    var path := ConfigPath(env, w);
    var written := TryBlock(path, w).outputs;
    NamesValid();
    if w.readText(path).Success? {
      var raw := w.readText(path).value;
      if w.safeLoad(raw).Success? {
        var data := Normalise(w.safeLoad(raw).value);
        if w.jsonDumps(data).Success? {
          var json := w.jsonDumps(data).value;
          assert written == [Record("has-config", "true"), Record("config", json), Record("raw-yaml", raw)];
          assert Readable(Record("config", json)) && Readable(Record("raw-yaml", raw));
        }
      }
    }
  }

  lemma NamesValid()
    ensures ValidName("has-config") && ValidName("config") && ValidName("raw-yaml")
  {
  }

  lemma AbsentReadable()
    ensures Readable(AbsentTriple()[0]) && Readable(AbsentTriple()[1]) && Readable(AbsentTriple()[2])
  {
    NamesValid();
  }

  lemma ReadableAfterTry(written: seq<Record>, handled: seq<Record>, i: nat)
    requires forall j :: 0 <= j < |written| ==> Readable(written[j])
    requires handled == [] || handled == AbsentTriple()
    requires i < |written + handled|
    ensures Readable((written + handled)[i])
  {
    AbsentReadable();
    if i < |written| {
      assert (written + handled)[i] == written[i];
    } else {
      assert (written + handled)[i] == handled[i - |written|];
    }
  }
}
