/** Line splitting, joining and ASCII lower-casing on strings. */
module Text {

  /** The text of `s` before its first line feed, and the text after it;
      a string without a line feed is one unterminated line. */
  function SplitLine(s: string): (r: (string, string))
    ensures '\n' !in r.0
    ensures '\n' in s ==> s == r.0 + "\n" + r.1
    ensures '\n' !in s ==> r == (s, "")
  {
    if s == [] then ("", "")
    else if s[0] == '\n' then ("", s[1..])
    else
      var (line, rest) := SplitLine(s[1..]);
      assert s == [s[0]] + s[1..];
      ([s[0]] + line, rest)
  }

  /** `a + "\n" + b` splits at the line feed after `a`. */
  lemma {:induction false} SplitLineAt(a: string, b: string)
    requires '\n' !in a
    ensures SplitLine(a + "\n" + b) == (a, b)
    decreases |a|
  {
    var s := a + "\n" + b;
    if a != [] {
      assert s[1..] == a[1..] + "\n" + b;
      SplitLineAt(a[1..], b);
      assert [a[0]] + a[1..] == a;
    } else {
      assert s[1..] == b;
    }
  }

  /** The lines of `s`, split at every line feed (Python's `s.split("\n")`). */
  function Lines(s: string): (r: seq<string>)
    ensures |r| >= 1
    ensures forall i :: 0 <= i < |r| ==> '\n' !in r[i]
    decreases |s|
  {
    if '\n' in s then
      var (line, rest) := SplitLine(s);
      [line] + Lines(rest)
    else [s]
  }

  /** `sep.join(parts)` */
  function Join(parts: seq<string>, sep: string): string
  {
    if |parts| == 0 then ""
    else if |parts| == 1 then parts[0]
    else parts[0] + sep + Join(parts[1..], sep)
  }

  /** Joining one more part in front adds at most that part and a separator. */
  lemma JoinConsLength(part: string, parts: seq<string>, sep: string)
    ensures |Join([part] + parts, sep)| <= |part| + |sep| + |Join(parts, sep)|
  {
    if parts != [] {
      assert ([part] + parts)[1..] == parts;
    }
  }

  /** Splitting at line feeds and joining with line feeds gives the text back. */
  lemma {:induction false} JoinLines(s: string)
    ensures Join(Lines(s), "\n") == s
    decreases |s|
  {
    if '\n' in s {
      var (line, rest) := SplitLine(s);
      JoinLines(rest);
      assert Lines(s) == [line] + Lines(rest);
      assert |Lines(rest)| >= 1;
      assert ([line] + Lines(rest))[1..] == Lines(rest);
    }
  }

  /** Where the `i`-th part starts in `Join(parts, sep)`: the lengths of the
      parts before it, each followed by a separator. */
  function Offset(parts: seq<string>, sep: string, i: nat): nat
    requires i <= |parts|
  {
    if i == 0 then 0 else Offset(parts, sep, i - 1) + |parts[i - 1]| + |sep|
  }

  lemma {:induction false} OffsetTail(parts: seq<string>, sep: string, i: nat)
    requires 1 <= i <= |parts|
    ensures Offset(parts, sep, i) == |parts[0]| + |sep| + Offset(parts[1..], sep, i - 1)
  {
    if i > 1 {
      OffsetTail(parts, sep, i - 1);
    }
  }

  /** From the offset of the `i`-th part on, the joined text is the join
      of the parts from `i` on. */
  lemma {:induction false} JoinFrom(parts: seq<string>, sep: string, i: nat)
    requires i < |parts|
    ensures Offset(parts, sep, i) <= |Join(parts, sep)|
    ensures Join(parts, sep)[Offset(parts, sep, i)..] == Join(parts[i..], sep)
    decreases i
  {
    if i > 0 {
      var tail := parts[1..];
      JoinFrom(tail, sep, i - 1);
      OffsetTail(parts, sep, i);
      var base := |parts[0]| + |sep|;
      var j := Join(parts, sep);
      assert j == parts[0] + sep + Join(tail, sep);
      assert j[base..] == Join(tail, sep);
      assert tail[i - 1..] == parts[i..];
    }
  }

  /** `JoinPlaces` for a part known by its value. */
  lemma JoinPart(parts: seq<string>, sep: string, i: nat, part: string)
    requires i < |parts| && parts[i] == part
    ensures Offset(parts, sep, i) + |part| <= |Join(parts, sep)|
    ensures Join(parts, sep)[Offset(parts, sep, i)..Offset(parts, sep, i) + |part|] == part
    ensures i + 1 < |parts| ==>
      && Offset(parts, sep, i + 1) == Offset(parts, sep, i) + |part| + |sep|
      && Offset(parts, sep, i + 1) <= |Join(parts, sep)|
      && Join(parts, sep)[Offset(parts, sep, i) + |part|..Offset(parts, sep, i + 1)] == sep
    ensures i + 1 == |parts| ==> Offset(parts, sep, i) + |part| == |Join(parts, sep)|
  {
    JoinPlaces(parts, sep, i);
  }

  /** `Join(parts, sep)` holds the parts in their order at consecutive
      offsets, with `sep` between neighbours. */
  lemma JoinPlaces(parts: seq<string>, sep: string, i: nat)
    requires i < |parts|
    ensures Offset(parts, sep, i) + |parts[i]| <= |Join(parts, sep)|
    ensures Join(parts, sep)[Offset(parts, sep, i)..Offset(parts, sep, i) + |parts[i]|] == parts[i]
    ensures i + 1 < |parts| ==> Offset(parts, sep, i + 1) <= |Join(parts, sep)|
    ensures i + 1 < |parts| ==>
      Join(parts, sep)[Offset(parts, sep, i) + |parts[i]|..Offset(parts, sep, i + 1)] == sep
    ensures i + 1 == |parts| ==> Offset(parts, sep, i) + |parts[i]| == |Join(parts, sep)|
  {
    JoinFrom(parts, sep, i);
    var j := Join(parts, sep);
    var o := Offset(parts, sep, i);
    var rest := parts[i..];
    assert rest[0] == parts[i];
    if i + 1 < |parts| {
      assert rest[1..] == parts[i + 1..];
      assert Join(rest, sep) == parts[i] + sep + Join(parts[i + 1..], sep);
    } else {
      assert Join(rest, sep) == parts[i];
    }
    assert j[o..][..|parts[i]|] == j[o..o + |parts[i]|];
  }

  /** Python's `str.lower()` on the ASCII letters; every other character is kept. */
  function LowerChar(c: char): char
  {
    if 'A' <= c <= 'Z' then (c as int + 32) as char else c
  }

  function AsciiLower(s: string): (r: string)
    ensures |r| == |s|
  {
    if s == [] then "" else [LowerChar(s[0])] + AsciiLower(s[1..])
  }

  lemma {:induction false} AsciiLowerAt(s: string, i: nat)
    requires i < |s|
    ensures AsciiLower(s)[i] == LowerChar(s[i])
    decreases |s|
  {
    if i > 0 {
      AsciiLowerAt(s[1..], i - 1);
    }
  }
}
