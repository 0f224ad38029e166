/** The two append-only files a GitHub Actions step writes: the output file
    (`GITHUB_OUTPUT`), a sequence of name/value records, and the step summary
    (`GITHUB_STEP_SUMMARY`), a sequence of markdown lines.

    A record whose value has no line feed is one `name=value` line; any other
    value is written as a block `name<<EOF`, the value, and a closing line
    `EOF`. `ReadOutputFile` is a reference reading of that format, so that
    what the writer produces can be checked by reading it back. */
module OutputFormat {
  import opened Wrappers
  import opened Text

  datatype Record = Record(name: string, value: string)

  /** The fixed block delimiter of the writer. */
  const Delimiter: string := "EOF"

  /** The text that `write_output(name, value)` appends for one record. */
  function FormatRecord(r: Record): string
  {
    if '\n' in r.value then r.name + "<<" + Delimiter + "\n" + r.value + "\n" + Delimiter + "\n"
    else r.name + "=" + r.value + "\n"
  }

  /** The text appended by writing `recs` one after the other. */
  function Serialize(recs: seq<Record>): string
  {
    if recs == [] then "" else FormatRecord(recs[0]) + Serialize(recs[1..])
  }

  lemma {:induction false} SerializeAppend(a: seq<Record>, b: seq<Record>)
    ensures Serialize(a + b) == Serialize(a) + Serialize(b)
  {
    if a != [] {
      assert (a + b)[1..] == a[1..] + b;
      SerializeAppend(a[1..], b);
    } else {
      assert a + b == b;
    }
  }

  /** The text that `write_summary(text)` appends for one line. */
  function SummaryEntry(text: string): string
  {
    text + "\n"
  }

  /** The text appended by writing the summary lines `lines` in order. */
  function SummaryText(lines: seq<string>): string
  {
    if lines == [] then "" else SummaryEntry(lines[0]) + SummaryText(lines[1..])
  }

  lemma {:induction false} SummaryTextAppend(a: seq<string>, b: seq<string>)
    ensures SummaryText(a + b) == SummaryText(a) + SummaryText(b)
  {
    if a != [] {
      assert (a + b)[1..] == a[1..] + b;
      SummaryTextAppend(a[1..], b);
    } else {
      assert a + b == b;
    }
  }

  // ---------------------------------------------------------------------
  // Reading the output file back

  /** A record header starts at `i`: an `=` or the pair `<<`. */
  predicate IsMarkerAt(line: string, i: nat)
    requires i < |line|
  {
    line[i] == '=' || (line[i] == '<' && i + 1 < |line| && line[i + 1] == '<')
  }

  /** The first header marker at or after `i`, or `|line|` if there is none. */
  function FindMarker(line: string, i: nat): (m: nat)
    requires i <= |line|
    ensures i <= m <= |line|
    ensures m < |line| ==> IsMarkerAt(line, m)
    ensures forall j :: i <= j < m ==> !IsMarkerAt(line, j)
    decreases |line| - i
  {
    if i == |line| then i
    else if IsMarkerAt(line, i) then i
    else FindMarker(line, i + 1)
  }

  datatype Header = Single(name: string, value: string) | Block(name: string, delimiter: string) | Malformed

  /** A non-empty line read as `name=value` or `name<<delimiter`, whichever
      marker comes first; a line with neither, an empty name or an empty
      delimiter is malformed. */
  function ParseHeader(line: string): Header
  {
    var m := FindMarker(line, 0);
    if m == |line| || m == 0 then Malformed
    else if line[m] == '=' then Single(line[..m], line[m + 1..])
    else if m + 2 == |line| then Malformed
    else Block(line[..m], line[m + 2..])
  }

  /** The lines of a block value up to the line equal to `delimiter`, and the
      text after that line; `None` when no such line follows. */
  function ReadBlock(s: string, delimiter: string): (r: Option<(seq<string>, string)>)
    ensures r.Some? ==> |r.value.1| < |s|
    decreases |s|
  {
    if s == [] then None
    else
      var (line, rest) := SplitLine(s);
      if line == delimiter then Some(([], rest))
      else ConsLine(line, ReadBlock(rest, delimiter))
  }

  function ConsLine(line: string, r: Option<(seq<string>, string)>): Option<(seq<string>, string)>
  {
    match r
    case None => None
    case Some((lines, tail)) => Some(([line] + lines, tail))
  }

  function PrependAll(recs: seq<Record>, r: Option<seq<Record>>): Option<seq<Record>>
  {
    match r
    case None => None
    case Some(later) => Some(recs + later)
  }

  /** The records of an output file in the order they were written; empty
      lines are skipped; `None` for a malformed file. */
  function ReadOutputFile(text: string): Option<seq<Record>>
    decreases |text|, 0
  {
    if text == [] then Some([])
    else
      var (line, rest) := SplitLine(text);
      if line == [] then ReadOutputFile(rest) else ReadRecord(ParseHeader(line), rest)
  }

  /** The record whose header line was `h`, then the records of the text after it. */
  function ReadRecord(h: Header, rest: string): Option<seq<Record>>
    decreases |rest|, 1
  {
    match h
    case Malformed => None
    case Single(name, value) => PrependAll([Record(name, value)], ReadOutputFile(rest))
    case Block(name, delimiter) =>
      match ReadBlock(rest, delimiter)
      case None => None
      case Some((lines, tail)) => PrependAll([Record(name, Join(lines, "\n"))], ReadOutputFile(tail))
  }

  /** A name that the writer's two layouts keep apart from its value. */
  predicate ValidName(name: string)
  {
    name != [] && '=' !in name && '<' !in name && '\n' !in name
  }

  /** A record that reads back as itself: a valid name, and a block value
      without a line equal to the fixed delimiter. */
  predicate Readable(r: Record)
  {
    ValidName(r.name) && ('\n' in r.value ==> Delimiter !in Lines(r.value))
  }

  lemma HeaderOf(name: string, marker: string, rest: string)
    requires ValidName(name)
    requires marker == "=" || marker == "<<"
    ensures var line := name + marker + rest;
      FindMarker(line, 0) == |name| && line[..|name|] == name && line[|name|] == marker[0]
  {
    var line := name + marker + rest;
    assert IsMarkerAt(line, |name|);
    assert line[..|name|] == name;
  }

  /** One step of `ReadBlock` on a line followed by a line feed. */
  lemma ReadBlockStep(line: string, rest: string, d: string)
    requires '\n' !in line
    ensures ReadBlock(line + "\n" + rest, d)
         == if line == d then Some(([], rest)) else ConsLine(line, ReadBlock(rest, d))
  {
    SplitLineAt(line, rest);
  }

  /** One step of `ReadOutputFile` on a non-empty line followed by a line feed. */
  lemma ReadStep(line: string, rest: string)
    requires '\n' !in line && line != []
    ensures ReadOutputFile(line + "\n" + rest) == ReadRecord(ParseHeader(line), rest)
  {
    SplitLineAt(line, rest);
  }

  /** The block of a value with no delimiter line ends right after it. */
  lemma {:induction false} ReadBlockOf(v: string, d: string, more: string)
    requires '\n' !in d && d !in Lines(v)
    ensures ReadBlock(v + "\n" + d + "\n" + more, d) == Some((Lines(v), more))
    decreases |v|
  {
    ReadBlockStep(d, more, d);
    if '\n' in v {
      var (line, rest) := SplitLine(v);
      var lines := Lines(rest);
      assert Lines(v) == [line] + lines;
      assert line != d;
      var after := rest + "\n" + d + "\n" + more;
      assert v + "\n" + d + "\n" + more == line + "\n" + after;
      ReadBlockStep(line, after, d);
      ReadBlockOf(rest, d, more);
    } else {
      assert Lines(v) == [v];
      assert v + "\n" + d + "\n" + more == v + "\n" + (d + "\n" + more);
      ReadBlockStep(v, d + "\n" + more, d);
      assert [v] + [] == [v];
    }
  }

  lemma ParseBlockHeader(name: string)
    requires ValidName(name)
    ensures ParseHeader(name + "<<" + Delimiter) == Block(name, Delimiter)
  {
    var header := name + "<<" + Delimiter;
    HeaderOf(name, "<<", Delimiter);
    assert header[|name| + 2..] == Delimiter;
  }

  lemma ParseSingleHeader(name: string, value: string)
    requires ValidName(name)
    ensures ParseHeader(name + "=" + value) == Single(name, value)
  {
    var line := name + "=" + value;
    HeaderOf(name, "=", value);
    assert line[|name| + 1..] == value;
  }

  /** A block record whose block reads as `lines`, then the text after it. */
  lemma ReadBlockRecord(name: string, d: string, rest: string, lines: seq<string>, tail: string)
    requires ReadBlock(rest, d) == Some((lines, tail))
    ensures ReadRecord(Block(name, d), rest)
         == PrependAll([Record(name, Join(lines, "\n"))], ReadOutputFile(tail))
  {
  }

  /** One formatted record reads back as that record, followed by whatever
      the text after it reads as. */
  lemma ReadBackRecord(r: Record, more: string)
    requires Readable(r)
    ensures ReadOutputFile(FormatRecord(r) + more) == PrependAll([r], ReadOutputFile(more))
  {
    if '\n' in r.value {
      ReadBackBlock(r, more);
    } else {
      var line := r.name + "=" + r.value;
      assert FormatRecord(r) + more == line + "\n" + more;
      ParseSingleHeader(r.name, r.value);
      ReadStep(line, more);
    }
  }

  lemma ReadBackBlock(r: Record, more: string)
    requires Readable(r) && '\n' in r.value
    ensures ReadOutputFile(FormatRecord(r) + more) == PrependAll([r], ReadOutputFile(more))
  {
    var header := r.name + "<<" + Delimiter;
    var body := r.value + "\n" + Delimiter + "\n" + more;
    assert FormatRecord(r) + more == header + "\n" + body;
    ParseBlockHeader(r.name);
    ReadStep(header, body);
    ReadBlockOf(r.value, Delimiter, more);
    JoinLines(r.value);
    ReadBlockRecord(r.name, Delimiter, body, Lines(r.value), more);
  }

  /** Records written one after the other read back as those records, in
      order, followed by whatever the text after them reads as. */
  lemma {:induction false} ReadBack(recs: seq<Record>, more: string)
    requires forall i :: 0 <= i < |recs| ==> Readable(recs[i])
    ensures ReadOutputFile(Serialize(recs) + more) == PrependAll(recs, ReadOutputFile(more))
  {
    if recs == [] {
      assert Serialize(recs) + more == more;
      PrependNothing(ReadOutputFile(more));
    } else {
      var first, others := recs[0], recs[1..];
      var after := Serialize(others) + more;
      assert Serialize(recs) + more == FormatRecord(first) + after;
      ReadBackRecord(first, after);
      ReadBack(others, more);
      PrependTwice(first, others, ReadOutputFile(more));
      assert [first] + others == recs;
    }
  }

  lemma PrependNothing(r: Option<seq<Record>>)
    ensures PrependAll([], r) == r
  {
    if r.Some? {
      assert [] + r.value == r.value;
    }
  }

  lemma PrependTwice(first: Record, others: seq<Record>, r: Option<seq<Record>>)
    ensures PrependAll([first], PrependAll(others, r)) == PrependAll([first] + others, r)
  {
    if r.Some? {
      assert [first] + (others + r.value) == ([first] + others) + r.value;
    }
  }

  /** A line free of `=`, `<` and line feeds is not a record header. */
  lemma NoMarker(b: string)
    requires forall i :: 0 <= i < |b| ==> b[i] != '=' && b[i] != '<' && b[i] != '\n'
    ensures ParseHeader(b) == Malformed
  {
  }

  /** A block value holding a line equal to the delimiter is cut short at
      that line; the delimiter line the writer adds after the value is then
      read as a malformed record, so the whole file fails to read. */
  lemma DelimiterLineBreaksReadBack(name: string, a: string, b: string)
    requires ValidName(name)
    requires '\n' !in a && a != Delimiter
    requires forall i :: 0 <= i < |b| ==> b[i] != '=' && b[i] != '<' && b[i] != '\n'
    ensures ReadOutputFile(FormatRecord(Record(name, a + "\n" + Delimiter + "\n" + b))) == None
  {
    BlockCutShort(name, a, b);
    StrayDelimiter(b);
  }

  /** The block ends at the first line equal to the delimiter; reading goes
      on after it, up to the delimiter line the writer added. */
  lemma BlockCutShort(name: string, a: string, rest: string)
    requires ValidName(name)
    requires '\n' !in a && a != Delimiter
    ensures ReadOutputFile(FormatRecord(Record(name, a + "\n" + Delimiter + "\n" + rest)))
         == PrependAll([Record(name, a)], ReadOutputFile(rest + "\n" + Delimiter + "\n"))
  {
    var value := a + "\n" + Delimiter + "\n" + rest;
    var tail := rest + "\n" + Delimiter + "\n";
    var body := a + "\n" + Delimiter + "\n" + tail;
    BlockLayout(name, a, rest);
    CutBlock(a, tail);
    ReadBlockRecord(name, Delimiter, body, [a], tail);
    assert Join([a], "\n") == a;
  }

  /** How the writer lays out a value that holds a delimiter line. */
  lemma BlockLayout(name: string, a: string, rest: string)
    requires ValidName(name)
    ensures var body := a + "\n" + Delimiter + "\n" + (rest + "\n" + Delimiter + "\n");
      ReadOutputFile(FormatRecord(Record(name, a + "\n" + Delimiter + "\n" + rest)))
      == ReadRecord(Block(name, Delimiter), body)
  {
    var value := a + "\n" + Delimiter + "\n" + rest;
    var header := name + "<<" + Delimiter;
    var body := a + "\n" + Delimiter + "\n" + (rest + "\n" + Delimiter + "\n");
    assert '\n' in value by {
      assert value[|a|] == '\n';
    }
    assert FormatRecord(Record(name, value)) == header + "\n" + body;
    ParseBlockHeader(name);
    ReadStep(header, body);
  }

  /** A block reading stops at the first line equal to the delimiter. */
  lemma CutBlock(a: string, tail: string)
    requires '\n' !in a && a != Delimiter
    ensures ReadBlock(a + "\n" + Delimiter + "\n" + tail, Delimiter) == Some(([a], tail))
  {
    var afterA := Delimiter + "\n" + tail;
    assert a + "\n" + Delimiter + "\n" + tail == a + "\n" + afterA;
    ReadBlockStep(Delimiter, tail, Delimiter);
    ReadBlockStep(a, afterA, Delimiter);
    assert [a] + [] == [a];
  }

  /** A line of text without a marker, followed by a lone delimiter line,
      does not read as records. */
  lemma StrayDelimiter(b: string)
    requires forall i :: 0 <= i < |b| ==> b[i] != '=' && b[i] != '<' && b[i] != '\n'
    ensures ReadOutputFile(b + "\n" + Delimiter + "\n") == None
  {
    var last := Delimiter + "\n";
    assert b + "\n" + Delimiter + "\n" == b + "\n" + last;
    if b == [] {
      LoneDelimiter();
      SplitLineAt(b, last);
    } else {
      NoMarker(b);
      ReadStep(b, last);
    }
  }

  /** A delimiter line on its own has no marker. */
  lemma LoneDelimiter()
    ensures ReadOutputFile(Delimiter + "\n") == None
  {
    NoMarker(Delimiter);
    ReadStep(Delimiter, "");
    assert Delimiter + "\n" + "" == Delimiter + "\n";
  }

  /** Reading a block whose value holds a line equal to the delimiter stops
      at the first such line, with a value shorter than the one written. */
  lemma {:induction false} BlockStopsEarly(v: string, more: string)
    requires Delimiter in Lines(v)
    ensures var r := ReadBlock(v + "\n" + more, Delimiter);
      && r.Some?
      && |r.value.0| < |Lines(v)|
      && r.value.0 == Lines(v)[..|r.value.0|]
      && Lines(v)[|r.value.0|] == Delimiter
      && Delimiter !in r.value.0
      && |Join(r.value.0, "\n")| < |v|
    decreases |v|
  {
    var (line, rest) := SplitLine(v);
    if '\n' in v {
      var after := rest + "\n" + more;
      assert v + "\n" + more == line + "\n" + after;
      ReadBlockStep(line, after, Delimiter);
      assert Lines(v) == [line] + Lines(rest);
      if line != Delimiter {
        BlockStopsEarly(rest, more);
        var lines := ReadBlock(after, Delimiter).value.0;
        var n := |lines|;
        assert Lines(v)[..1 + n] == [line] + Lines(rest)[..n];
        JoinConsLength(line, lines, "\n");
      }
    } else {
      assert Lines(v) == [v];
      ReadBlockStep(v, more, Delimiter);
    }
  }

  /** A value holding a line equal to the delimiter never reads back as
      itself, whatever follows its record in the file. */
  lemma DelimiterLineNeverReadsBack(name: string, v: string, more: string)
    requires ValidName(name) && '\n' in v && Delimiter in Lines(v)
    ensures var res := ReadOutputFile(FormatRecord(Record(name, v)) + more);
      res.Some? ==> res.value != [] && res.value[0].name == name && |res.value[0].value| < |v|
  {
    var header := name + "<<" + Delimiter;
    var body := v + "\n" + (Delimiter + "\n" + more);
    assert FormatRecord(Record(name, v)) + more == header + "\n" + body;
    ParseBlockHeader(name);
    ReadStep(header, body);
    BlockStopsEarly(v, Delimiter + "\n" + more);
    var (lines, tail) := ReadBlock(body, Delimiter).value;
    ReadBlockRecord(name, Delimiter, body, lines, tail);
  }

  /** A record with a valid name, written on its own, reads back as itself
      exactly when it is readable. */
  lemma ReadsBackIffReadable(r: Record)
    requires ValidName(r.name)
    ensures ReadOutputFile(FormatRecord(r)) == Some([r]) <==> Readable(r)
  {
    assert FormatRecord(r) + "" == FormatRecord(r);
    if Readable(r) {
      ReadBackRecord(r, "");
      assert [r] + [] == [r];
    } else {
      DelimiterLineNeverReadsBack(r.name, r.value, "");
    }
  }
}
