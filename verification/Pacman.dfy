/**
 Pinning packages by editing IgnorePkg in pacman.conf (pkg/pacman.go). The file is a text; both the reader and
 the rewriter see it through bufio.Scanner, which splits it into lines, drops a trailing carriage return and
 gives up at the first line that does not fit its buffer.
 */
module Pacman {
  import opened Text

  const SCANNER_LIMIT := 65536
  const OPTIONS := "[options]"
  const DIRECTIVE := "IgnorePkg"

  // ----- lines -----

  function RawLines(s: string): seq<string>
    decreases |s|
  {
    if s == [] then []
    else
      var k := IndexByte(s, '\n');
      if k < 0 then [s] else [s[..k]] + RawLines(s[k + 1..])
  }

  function DropCR(line: string): string {
    if line != [] && line[|line| - 1] == '\r' then line[..|line| - 1] else line
  }

  /** The lines a bufio.Scanner delivers. */
  function Scanned(raw: seq<string>): seq<string> {
    if raw == [] || |raw[0]| >= SCANNER_LIMIT then [] else [DropCR(raw[0])] + Scanned(raw[1..])
  }

  function Lines(conf: string): seq<string> {
    Scanned(RawLines(conf))
  }

  function Unlines(lines: seq<string>): string {
    if lines == [] then [] else lines[0] + "\n" + Unlines(lines[1..])
  }

  /** A line the scanner delivers as it is written. */
  predicate PlainLine(line: string) {
    |line| < SCANNER_LIMIT && '\n' !in line && '\r' !in line
  }

  predicate PlainLines(lines: seq<string>) {
    forall i :: 0 <= i < |lines| ==> PlainLine(lines[i])
  }

  /** A file all of whose lines the scanner delivers. */
  predicate PlainConf(conf: string) {
    PlainLines(RawLines(conf))
  }

  lemma {:induction false} PlainScanned(raw: seq<string>)
    requires PlainLines(raw)
    ensures Scanned(raw) == raw
  {
    if raw != [] {
      PlainScanned(raw[1..]);
      assert PlainLine(raw[0]);
      assert raw == [raw[0]] + raw[1..];
    }
  }

  predicate NoBreaks(lines: seq<string>) {
    forall i :: 0 <= i < |lines| ==> '\n' !in lines[i]
  }

  lemma NoBreaksRest(lines: seq<string>)
    requires NoBreaks(lines) && lines != []
    ensures '\n' !in lines[0] && NoBreaks(lines[1..])
  {
  }

  lemma FirstLine(line: string, rest: string)
    requires '\n' !in line
    ensures RawLines(line + ['\n'] + rest) == [line] + RawLines(rest)
  {
    hide IndexByte;
    var s := line + ['\n'] + rest;
    IndexByteAt(line, '\n', rest);
    assert s[..|line|] == line && s[|line| + 1..] == rest;
  }

  /** Lines written out are the lines of the file. */
  lemma {:induction false} RawOfUnlines(lines: seq<string>)
    requires NoBreaks(lines)
    ensures RawLines(Unlines(lines)) == lines
  {
    hide NoBreaks, RawLines;
    if lines == [] {
      assert RawLines([]) == [] by { NoLines(); }
    } else {
      NoBreaksRest(lines);
      RawOfUnlines(lines[1..]);
      FirstLine(lines[0], Unlines(lines[1..]));
      assert Unlines(lines) == lines[0] + ['\n'] + Unlines(lines[1..]);
      assert lines == [lines[0]] + lines[1..];
    }
  }

  lemma NoLines()
    ensures RawLines([]) == []
  {
  }

  /** Plain lines written out are the lines read back. */
  lemma LinesOfUnlines(lines: seq<string>)
    requires PlainLines(lines)
    ensures RawLines(Unlines(lines)) == lines && Lines(Unlines(lines)) == lines && PlainConf(Unlines(lines))
  {
    hide RawLines, Unlines, Scanned;
    assert forall i :: 0 <= i < |lines| ==> PlainLine(lines[i]) ==> '\n' !in lines[i];
    RawOfUnlines(lines);
    PlainScanned(lines);
  }

  /** The scanner delivers a line of up to 65535 characters and stops at a longer one. */
  lemma LongestLine(line: string, rest: seq<string>)
    requires '\r' !in line
    ensures Scanned([line] + rest) == if |line| <= 65535 then [line] + Scanned(rest) else []
  {
    assert ([line] + rest)[1..] == rest;
  }

  // ----- the directive -----

  predicate IsIgnoreLine(line: string) {
    var t := TrimSpace(line);
    |DIRECTIVE| <= |t| && t[..|DIRECTIVE|] == DIRECTIVE
  }

  /** The names on one IgnorePkg line: the fields behind the first `=`. */
  function NamesOn(line: string): seq<string> {
    var t := TrimSpace(line);
    var k := IndexByte(t, '=');
    if k < 0 then [] else Fields(TrimSpace(t[k + 1..]))
  }

  function Ignored(lines: seq<string>): seq<string> {
    if lines == [] then []
    else NamesHere(lines[0]) + Ignored(lines[1..])
  }

  function NamesHere(line: string): seq<string> {
    if IsIgnoreLine(line) then NamesOn(line) else []
  }

  /** getIgnoredPackages. */
  method GetIgnoredPackages(conf: string) returns (ignored: seq<string>)
    ensures ignored == Ignored(Lines(conf))
  {
    hide IsIgnoreLine, NamesOn, Ignored, Scanned;
    var lines := Lines(conf);
    IgnoredNone();
    ignored := [];
    for i := 0 to |lines|
      invariant ignored == Ignored(lines[..i])
    {
      assert lines[..i + 1] == lines[..i] + [lines[i]];
      IgnoredAppend(lines[..i], [lines[i]]);
      IgnoredOne(lines[i]);
      if IsIgnoreLine(lines[i]) {
        ignored := ignored + NamesOn(lines[i]);
      }
    }
    assert lines[..|lines|] == lines;
  }

  lemma IgnoredNone()
    ensures Ignored([]) == []
  {
  }

  lemma IgnoredOne(line: string)
    ensures Ignored([line]) == NamesHere(line)
  {
    assert [line][1..] == [];
  }

  lemma {:induction false} IgnoredAppend(a: seq<string>, b: seq<string>)
    ensures Ignored(a + b) == Ignored(a) + Ignored(b)
  {
    hide NamesHere;
    if a == [] {
      assert a + b == b;
    } else {
      IgnoredAppend(a[1..], b);
      assert (a + b)[1..] == a[1..] + b;
      Regroup(NamesHere(a[0]), Ignored(a[1..]), Ignored(b));
    }
  }

  lemma Regroup<T>(a: seq<T>, b: seq<T>, c: seq<T>)
    ensures a + (b + c) == (a + b) + c
  {
  }

  function Directive(names: seq<string>): string {
    DIRECTIVE + " = " + Join(names)
  }

  predicate Words(names: seq<string>) {
    forall i :: 0 <= i < |names| ==> IsWord(names[i])
  }

  lemma {:induction false} JoinEnds(names: seq<string>)
    requires Words(names) && names != []
    ensures Join(names) != [] && !IsSpace(Join(names)[0]) && !IsSpace(Join(names)[|Join(names)| - 1])
  {
    hide IsSpace;
    assert IsWord(names[0]);
    if |names| > 1 {
      JoinEnds(names[1..]);
    }
  }

  lemma TrimmedIsSame(s: string)
    requires s != [] && !IsSpace(s[0]) && !IsSpace(s[|s| - 1])
    ensures TrimSpace(s) == s
  {
  }

  /** The consolidated directive is recognised, and gives back the names it was made from. */
  lemma DirectiveReadBack(names: seq<string>)
    requires Words(names) && names != []
    ensures IsIgnoreLine(Directive(names)) && NamesOn(Directive(names)) == names
  {
    hide Fields, IsSpace, TrimSpace, IndexByte;
    var joined := Join(names);
    var line := Directive(names);
    JoinEnds(names);
    assert line[0] == 'I' && !IsSpace('I') by { NotSpace(); }
    assert line[|line| - 1] == joined[|joined| - 1];
    TrimmedIsSame(line);
    assert line == "IgnorePkg " + ['='] + (" " + joined);
    assert '=' !in "IgnorePkg ";
    IndexByteAt("IgnorePkg ", '=', " " + joined);
    assert line[11..] == " " + joined;
    SpaceTrimmed(joined);
    FieldsOfJoin(names, []);
    assert joined + [] == joined;
  }

  lemma NotSpace()
    ensures !IsSpace('I')
  {
  }

  lemma SpaceTrimmed(s: string)
    requires s != [] && !IsSpace(s[0]) && !IsSpace(s[|s| - 1])
    ensures TrimSpace(" " + s) == s
  {
    assert (" " + s)[1..] == s;
    assert TrimLeft(" " + s) == s;
  }

  // ----- the rewrite -----

  /** The lines that are none of ours. */
  function Others(lines: seq<string>): seq<string> {
    if lines == [] then []
    else OtherHere(lines[0]) + Others(lines[1..])
  }

  function OtherHere(line: string): seq<string> {
    if IsIgnoreLine(line) then [] else [line]
  }

  predicate HasIgnoreLine(lines: seq<string>) {
    exists i :: 0 <= i < |lines| && IsIgnoreLine(lines[i])
  }

  predicate HasOptions(lines: seq<string>) {
    exists i :: 0 <= i < |lines| && Contains(lines[i], OPTIONS)
  }

  function DirectiveLines(names: seq<string>): seq<string> {
    if names == [] then [] else [Directive(names)]
  }

  /** The loop's output: the first IgnorePkg line makes way for the directive, the others go. */
  function Replaced(lines: seq<string>, names: seq<string>): seq<string> {
    if lines == [] then []
    else if IsIgnoreLine(lines[0]) then DirectiveLines(names) + Others(lines[1..])
    else [lines[0]] + Replaced(lines[1..], names)
  }

  /** With no IgnorePkg line, the directive goes behind the first line that mentions [options]. */
  function Inserted(lines: seq<string>, line: string): seq<string> {
    if lines == [] then []
    else if Contains(lines[0], OPTIONS) then [lines[0], line] + lines[1..]
    else [lines[0]] + Inserted(lines[1..], line)
  }

  function Rewritten(lines: seq<string>, names: seq<string>): seq<string> {
    if HasIgnoreLine(lines) then Replaced(lines, names)
    else if names == [] then lines
    else Inserted(lines, Directive(names))
  }

  /** The first pin of a file with an `[options]` section and no IgnorePkg line goes right behind that line. */
  lemma FirstPin(before: seq<string>, after: seq<string>, names: seq<string>)
    requires !HasIgnoreLine(before + ["[options]"] + after) && !HasOptions(before) && names != []
    ensures Rewritten(before + ["[options]"] + after, names) ==
            before + ["[options]", "IgnorePkg = " + Join(names)] + after
  {
    hide IsIgnoreLine, Contains;
    assert Contains("[options]", OPTIONS) by { ContainsItself(OPTIONS); }
    InsertedBehind(before, "[options]", after, Directive(names));
    assert Directive(names) == "IgnorePkg = " + Join(names) by {
      assert DIRECTIVE + " = " == "IgnorePkg = ";
    }
  }

  lemma ContainsItself(s: string)
    ensures Contains(s, s)
  {
    assert OccursAt(s, s, 0);
  }

  lemma {:induction false} InsertedBehind(before: seq<string>, options: string, after: seq<string>, line: string)
    requires !HasOptions(before) && Contains(options, OPTIONS)
    ensures Inserted(before + [options] + after, line) == before + [options, line] + after
  {
    hide Contains;
    var lines := before + [options] + after;
    if before == [] {
      assert lines[1..] == after;
    } else {
      assert !Contains(before[0], OPTIONS);
      assert lines[1..] == before[1..] + [options] + after;
      InsertedBehind(before[1..], options, after, line);
    }
  }

  /** The insertion as the code does it, on the text. */
  function InsertText(content: string, line: string): string {
    var at := Index(content, OPTIONS);
    if at < 0 then content
    else
      var nl := IndexByte(content[at..], '\n');
      if nl < 0 then content
      else Splice(content, at + nl + 1, line)
  }

  function Splice(content: string, m: nat, line: string): string
    requires m <= |content|
  {
    content[..m] + (line + "\n" + content[m..])
  }

  lemma {:induction false} UnlinesAppend(a: seq<string>, b: seq<string>)
    ensures Unlines(a + b) == Unlines(a) + Unlines(b)
  {
    if a == [] {
      assert a + b == b;
    } else {
      UnlinesAppend(a[1..], b);
      assert (a + b)[1..] == a[1..] + b;
      Regroup(a[0] + "\n", Unlines(a[1..]), Unlines(b));
    }
  }

  lemma {:induction false} OthersAppend(a: seq<string>, b: seq<string>)
    ensures Others(a + b) == Others(a) + Others(b)
  {
    hide OtherHere;
    if a == [] {
      assert a + b == b;
    } else {
      OthersAppend(a[1..], b);
      assert (a + b)[1..] == a[1..] + b;
      Regroup(OtherHere(a[0]), Others(a[1..]), Others(b));
    }
  }

  lemma OthersOne(line: string)
    ensures Others([line]) == OtherHere(line)
  {
    assert [line][1..] == [];
  }

  /** What the loop has written after some lines. */
  function Output(lines: seq<string>, names: seq<string>): seq<string> {
    if HasIgnoreLine(lines) then Replaced(lines, names) else lines
  }

  lemma {:induction false} OutputMore(lines: seq<string>, line: string, names: seq<string>)
    ensures HasIgnoreLine(lines + [line]) <==> HasIgnoreLine(lines) || IsIgnoreLine(line)
    ensures Output(lines + [line], names) ==
            Output(lines, names) +
            if !IsIgnoreLine(line) then [line] else if HasIgnoreLine(lines) then [] else DirectiveLines(names)
  {
    hide IsIgnoreLine, DirectiveLines;
    var more := lines + [line];
    HasIgnoreAppend(lines, [line]);
    assert IsIgnoreLine(line) <==> HasIgnoreLine([line]) by {
      assert [line][0] == line;
    }
    if lines == [] {
      assert more == [line];
      assert Others([]) == [] && Replaced([], names) == [];
    } else {
      var head, tail := lines[0], lines[1..];
      assert more[1..] == tail + [line];
      assert lines == [head] + tail;
      HasIgnoreAppend([head], tail);
      HasIgnoreAppend([head], tail + [line]);
      assert more == [head] + (tail + [line]);
      if IsIgnoreLine(head) {
        assert HasIgnoreLine(lines) by { assert IsIgnoreLine(lines[0]); }
        assert HasIgnoreLine(more) by { assert IsIgnoreLine(more[0]); }
        OthersAppend(tail, [line]);
        OthersOne(line);
        Regroup(DirectiveLines(names), Others(tail), OtherHere(line));
      } else {
        OutputMore(tail, line, names);
        var extra := if !IsIgnoreLine(line) then [line] else if HasIgnoreLine(tail) then [] else DirectiveLines(names);
        Regroup([head], Output(tail, names), extra);
      }
    }
  }

  lemma HasIgnoreAppend(a: seq<string>, b: seq<string>)
    ensures HasIgnoreLine(a + b) <==> HasIgnoreLine(a) || HasIgnoreLine(b)
  {
    hide IsIgnoreLine;
    if HasIgnoreLine(a) {
      var i :| 0 <= i < |a| && IsIgnoreLine(a[i]);
      assert (a + b)[i] == a[i];
    }
    if HasIgnoreLine(b) {
      var i :| 0 <= i < |b| && IsIgnoreLine(b[i]);
      assert (a + b)[|a| + i] == b[i];
    }
  }

  /** An occurrence of a pattern without newline lies within the first line or behind it. */
  lemma OccursSplit(line: string, rest: string, pattern: string, i: nat)
    requires '\n' !in pattern && pattern != []
    ensures OccursAt(line + "\n" + rest, pattern, i) <==>
              OccursAt(line, pattern, i) || (i > |line| && OccursAt(rest, pattern, i - |line| - 1))
  {
    var s := line + "\n" + rest;
    var m := |pattern|;
    if i + m <= |line| {
      assert s[i..i + m] == line[i..i + m];
    } else if i <= |line| {
      if i + m <= |s| {
        assert s[i..i + m][|line| - i] == '\n';
      }
    } else if i + m <= |s| {
      assert s[i..i + m] == rest[i - |line| - 1..i - |line| - 1 + m];
    }
  }

  lemma OptionsIsPlain()
    ensures '\n' !in OPTIONS && OPTIONS != []
  {
  }

  lemma InsertInFirst(line: string, rest: string, directive: string)
    requires '\n' !in line && Contains(line, OPTIONS)
    ensures InsertText(line + "\n" + rest, directive) == line + "\n" + directive + "\n" + rest
  {
    hide OccursAt, IndexByte;
    OptionsIsPlain();
    var s := line + "\n" + rest;
    forall i: nat
      ensures OccursAt(s, OPTIONS, i) <==> OccursAt(line, OPTIONS, i) || (i > |line| && OccursAt(rest, OPTIONS, i - |line| - 1))
    {
      OccursSplit(line, rest, OPTIONS, i);
    }
    var at := Index(line, OPTIONS);
    assert at <= |line| by { OccursInside(line, OPTIONS, at); }
    SameIndex(s, line, OPTIONS);
    InsertAt(line, rest, directive, at);
  }

  lemma InsertAt(line: string, rest: string, directive: string, at: nat)
    requires '\n' !in line && at <= |line| && Index(line + "\n" + rest, OPTIONS) == at
    ensures InsertText(line + "\n" + rest, directive) == line + "\n" + directive + "\n" + rest
  {
    hide OccursAt, Contains, Index, IndexByte, Splice;
    var s := line + "\n" + rest;
    assert s[at..] == line[at..] + ['\n'] + rest;
    assert '\n' !in line[at..];
    IndexByteAt(line[at..], '\n', rest);
    SpliceBehind(line, rest, directive);
  }

  lemma SpliceBehind(line: string, rest: string, directive: string)
    ensures Splice(line + "\n" + rest, |line| + 1, directive) == line + "\n" + directive + "\n" + rest
  {
    var s := line + "\n" + rest;
    assert s[..|line| + 1] == line + "\n" && s[|line| + 1..] == rest;
    Regroup(line + "\n", directive + "\n", rest);
    Regroup(line + "\n", directive, "\n");
  }

  lemma OccursInside(s: string, pattern: string, i: nat)
    requires OccursAt(s, pattern, i)
    ensures i <= |s|
  {
  }

  /** The first occurrence in the line is the first in the text. */
  lemma SameIndex(s: string, line: string, pattern: string)
    requires |line| <= |s| && Contains(line, pattern)
    requires forall i: nat :: i <= |line| ==> (OccursAt(s, pattern, i) <==> OccursAt(line, pattern, i))
    ensures Index(s, pattern) == Index(line, pattern)
  {
    var at := Index(line, pattern);
    assert OccursAt(line, pattern, at) && at <= |line|;
    assert OccursAt(s, pattern, at);
    assert Contains(s, pattern);
  }

  lemma InsertBehind(line: string, rest: string, directive: string)
    requires '\n' !in line && !Contains(line, OPTIONS)
    ensures InsertText(line + "\n" + rest, directive) == line + "\n" + InsertText(rest, directive)
  {
    hide OccursAt, IndexByte;
    OptionsIsPlain();
    var s := line + "\n" + rest;
    var n := |line| + 1;
    forall i: nat
      ensures OccursAt(s, OPTIONS, i) <==> i >= n && OccursAt(rest, OPTIONS, i - n)
    {
      OccursSplit(line, rest, OPTIONS, i);
      if OccursAt(line, OPTIONS, i) {
        OccursInside(line, OPTIONS, i);
      }
    }
    ShiftedIndex(s, rest, OPTIONS, n);
    InsertShifted(line + "\n", rest, directive);
  }

  lemma InsertShifted(front: string, rest: string, directive: string)
    requires Index(front + rest, OPTIONS) == if Index(rest, OPTIONS) < 0 then -1 else Index(rest, OPTIONS) + |front|
    ensures InsertText(front + rest, directive) == front + InsertText(rest, directive)
  {
    hide OccursAt, Contains, Index, IndexByte, Splice, InsertText;
    if Index(rest, OPTIONS) < 0 {
      InsertTextNowhere(rest, directive);
      InsertTextNowhere(front + rest, directive);
    } else {
      IndexInside(rest, OPTIONS);
      InsertShiftedAt(front, rest, directive, Index(rest, OPTIONS));
    }
  }

  lemma IndexInside(s: string, pattern: string)
    ensures Index(s, pattern) <= |s|
  {
    hide Index;
    if Index(s, pattern) >= 0 {
      OccursInside(s, pattern, Index(s, pattern));
    }
  }

  lemma InsertShiftedAt(front: string, rest: string, directive: string, at: nat)
    requires Index(rest, OPTIONS) == at <= |rest| && Index(front + rest, OPTIONS) == at + |front|
    ensures InsertText(front + rest, directive) == front + InsertText(rest, directive)
  {
    hide OccursAt, Contains, Index, IndexByte, Splice, InsertText;
    var s, nl := front + rest, IndexByte(rest[at..], '\n');
    assert s[at + |front|..] == rest[at..];
    InsertTextAt(rest, directive, at, nl);
    InsertTextAt(s, directive, at + |front|, nl);
    if nl >= 0 {
      SpliceShifted(front, rest, at + nl + 1, directive);
    }
  }

  lemma InsertTextNowhere(content: string, line: string)
    requires Index(content, OPTIONS) < 0
    ensures InsertText(content, line) == content
  {
    hide Index;
  }

  lemma InsertTextAt(content: string, line: string, at: nat, nl: int)
    requires at <= |content| && Index(content, OPTIONS) == at && IndexByte(content[at..], '\n') == nl
    ensures nl >= 0 ==> at + nl + 1 <= |content|
    ensures InsertText(content, line) == if nl < 0 then content else Splice(content, at + nl + 1, line)
  {
    hide Index, IndexByte, Splice;
  }

  lemma SpliceShifted(front: string, rest: string, m: nat, line: string)
    requires m <= |rest|
    ensures Splice(front + rest, m + |front|, line) == front + Splice(rest, m, line)
  {
    var s := front + rest;
    assert s[..m + |front|] == front + rest[..m];
    assert s[m + |front|..] == rest[m..];
    Regroup(front, rest[..m], line + "\n" + rest[m..]);
  }

  lemma ShiftedIndex(s: string, rest: string, pattern: string, n: nat)
    requires |s| == n + |rest|
    requires forall i: nat :: OccursAt(s, pattern, i) <==> i >= n && OccursAt(rest, pattern, i - n)
    ensures Index(s, pattern) == if Index(rest, pattern) < 0 then -1 else Index(rest, pattern) + n
  {
    var at := Index(rest, pattern);
    if at >= 0 {
      assert OccursAt(s, pattern, at + n) && at + n <= |s|;
      assert Contains(s, pattern);
      assert forall i: nat :: i < at + n ==> !OccursAt(s, pattern, i);
    } else {
      assert forall i: nat :: i <= |rest| ==> !OccursAt(rest, pattern, i);
      assert forall i: nat :: i <= |s| ==> !OccursAt(s, pattern, i);
    }
  }

  /** Inserting in the text is inserting among the lines. */
  lemma {:induction false} InsertTextIsInserted(lines: seq<string>, directive: string)
    requires forall i :: 0 <= i < |lines| ==> '\n' !in lines[i]
    ensures InsertText(Unlines(lines), directive) == Unlines(Inserted(lines, directive))
  {
    hide InsertText, Contains;
    if lines == [] {
      InsertNowhere(directive);
    } else {
      var rest := Unlines(lines[1..]);
      if Contains(lines[0], OPTIONS) {
        InsertInFirst(lines[0], rest, directive);
        assert ([lines[0], directive] + lines[1..])[1..][1..] == lines[1..];
        assert ([lines[0], directive] + lines[1..])[1..][0] == directive;
        assert Unlines([lines[0], directive] + lines[1..]) == lines[0] + "\n" + (directive + "\n" + rest);
      } else {
        InsertBehind(lines[0], rest, directive);
        InsertTextIsInserted(lines[1..], directive);
      }
    }
  }

  lemma InsertNowhere(directive: string)
    ensures InsertText([], directive) == []
  {
  }

  lemma ScannedHasNoBreak(conf: string)
    ensures forall i :: 0 <= i < |Lines(conf)| ==> '\n' !in Lines(conf)[i]
  {
    RawHasNoBreak(conf);
    DropsKeepNoBreak(RawLines(conf));
  }

  lemma {:induction false} RawHasNoBreak(s: string)
    ensures forall i :: 0 <= i < |RawLines(s)| ==> '\n' !in RawLines(s)[i]
    decreases |s|
  {
    hide IndexByte;
    if s != [] {
      var k := IndexByte(s, '\n');
      if k >= 0 {
        RawHasNoBreak(s[k + 1..]);
      }
    }
  }

  lemma {:induction false} DropsKeepNoBreak(raw: seq<string>)
    requires forall i :: 0 <= i < |raw| ==> '\n' !in raw[i]
    ensures forall i :: 0 <= i < |Scanned(raw)| ==> '\n' !in Scanned(raw)[i]
  {
    if raw != [] {
      DropsKeepNoBreak(raw[1..]);
    }
  }

  /** buildIgnorePkgConf: the scanning loop with its `found` flag, then the insertion. */
  method BuildIgnorePkgConf(conf: string, names: seq<string>) returns (built: string)
    ensures built == Unlines(Rewritten(Lines(conf), names))
  {
    hide IsIgnoreLine, Directive, InsertText, Inserted, Output, HasIgnoreLine, Unlines, Rewritten, Lines;
    var lines := Lines(conf);
    OutputOfNone(names);
    built := [];
    var found := false;
    for i := 0 to |lines|
      invariant found <==> HasIgnoreLine(lines[..i])
      invariant built == Unlines(Output(lines[..i], names))
    {
      assert lines[..i + 1] == lines[..i] + [lines[i]];
      OutputMore(lines[..i], lines[i], names);
      var before := Output(lines[..i], names);
      if IsIgnoreLine(lines[i]) {
        if !found {
          found := true;
          UnlinesAppend(before, DirectiveLines(names));
          if |names| > 0 {
            UnlinesOne(Directive(names));
            built := built + (Directive(names) + "\n");
          }
        } else {
          assert before + [] == before;
        }
      } else {
        UnlinesAppend(before, [lines[i]]);
        UnlinesOne(lines[i]);
        built := built + (lines[i] + "\n");
      }
    }
    assert lines[..|lines|] == lines;
    OutputIsRewritten(lines, names);
    if !found && |names| > 0 {
      assert Lines(conf) == Scanned(RawLines(conf)) by { LinesAre(conf); }
      ScannedHasNoBreak(conf);
      InsertTextIsInserted(lines, Directive(names));
      built := InsertText(built, Directive(names));
    }
  }

  lemma LinesAre(conf: string)
    ensures Lines(conf) == Scanned(RawLines(conf))
  {
  }

  lemma OutputOfNone(names: seq<string>)
    ensures Output([], names) == [] && !HasIgnoreLine([]) && Unlines([]) == []
  {
  }

  /** What is still missing once the loop has seen every line. */
  lemma OutputIsRewritten(lines: seq<string>, names: seq<string>)
    ensures HasIgnoreLine(lines) || names == [] ==> Output(lines, names) == Rewritten(lines, names)
    ensures !HasIgnoreLine(lines) ==> Output(lines, names) == lines
    ensures !HasIgnoreLine(lines) && names != [] ==> Rewritten(lines, names) == Inserted(lines, Directive(names))
  {
    hide IsIgnoreLine, Replaced, Inserted, Directive;
  }

  lemma UnlinesOne(line: string)
    ensures Unlines([line]) == line + "\n"
  {
    assert [line][1..] == [];
  }

  // ----- what the rewrite keeps and what it says -----

  /** A line that is not the directive, cons'd in front. */
  lemma ConsOther(line: string, lines: seq<string>)
    ensures !IsIgnoreLine(line) ==> Ignored([line] + lines) == Ignored(lines) && Others([line] + lines) == [line] + Others(lines)
    ensures !IsIgnoreLine(line) ==> (HasIgnoreLine([line] + lines) <==> HasIgnoreLine(lines))
  {
    hide IsIgnoreLine;
    assert ([line] + lines)[1..] == lines;
    HasIgnoreAppend([line], lines);
  }

  lemma ConsDirective(names: seq<string>, lines: seq<string>)
    requires Words(names) && names != []
    ensures Ignored([Directive(names)] + lines) == names + Ignored(lines)
    ensures Others([Directive(names)] + lines) == Others(lines)
    ensures HasIgnoreLine([Directive(names)] + lines)
  {
    hide IsIgnoreLine, NamesOn;
    DirectiveReadBack(names);
    var all := [Directive(names)] + lines;
    assert all[1..] == lines && IsIgnoreLine(all[0]);
  }

  lemma {:induction false} OthersAreOthers(lines: seq<string>)
    ensures Ignored(Others(lines)) == [] && Others(Others(lines)) == Others(lines) && !HasIgnoreLine(Others(lines))
  {
    hide IsIgnoreLine;
    if lines != [] {
      OthersAreOthers(lines[1..]);
      if IsIgnoreLine(lines[0]) {
        assert Others(lines) == [] + Others(lines[1..]) == Others(lines[1..]);
      } else {
        ConsOther(lines[0], Others(lines[1..]));
      }
    }
  }

  lemma {:induction false} NoIgnoreLine(lines: seq<string>)
    requires !HasIgnoreLine(lines)
    ensures Ignored(lines) == [] && Others(lines) == lines
  {
    hide IsIgnoreLine;
    if lines != [] {
      assert !IsIgnoreLine(lines[0]);
      assert lines == [lines[0]] + lines[1..];
      ConsOther(lines[0], lines[1..]);
      NoIgnoreLine(lines[1..]);
    }
  }

  lemma {:induction false} ReplacedIs(lines: seq<string>, names: seq<string>)
    requires HasIgnoreLine(lines) && Words(names)
    ensures Ignored(Replaced(lines, names)) == names && Others(Replaced(lines, names)) == Others(lines)
    ensures HasIgnoreLine(Replaced(lines, names)) <==> names != []
    ensures names != [] ==> Replaced(Replaced(lines, names), names) == Replaced(lines, names)
  {
    hide IsIgnoreLine, Directive, IsWord;
    assert lines == [lines[0]] + lines[1..];
    var rest := Others(lines[1..]);
    if IsIgnoreLine(lines[0]) {
      OthersAreOthers(lines[1..]);
      if names == [] {
        assert [] + rest == rest;
      } else {
        ConsDirective(names, rest);
        DirectiveReadBack(names);
        assert ([Directive(names)] + rest)[1..] == rest;
      }
    } else {
      ConsOther(lines[0], lines[1..]);
      ReplacedIs(lines[1..], names);
      ConsOther(lines[0], Replaced(lines[1..], names));
      assert ([lines[0]] + Replaced(lines[1..], names))[1..] == Replaced(lines[1..], names);
    }
  }

  lemma {:induction false} InsertedIs(lines: seq<string>, names: seq<string>)
    requires !HasIgnoreLine(lines) && Words(names) && names != []
    ensures Ignored(Inserted(lines, Directive(names))) == if HasOptions(lines) then names else []
    ensures Others(Inserted(lines, Directive(names))) == lines
    ensures HasIgnoreLine(Inserted(lines, Directive(names))) <==> HasOptions(lines)
    ensures HasOptions(lines) ==> Replaced(Inserted(lines, Directive(names)), names) == Inserted(lines, Directive(names))
    ensures !HasOptions(lines) ==> Inserted(lines, Directive(names)) == lines
  {
    hide IsIgnoreLine, Directive, IsWord, Contains;
    NoIgnoreLine(lines);
    if lines != [] {
      var head, tail := lines[0], lines[1..];
      assert lines == [head] + tail;
      assert !IsIgnoreLine(lines[0]);
      ConsOther(head, tail);
      OptionsCons(head, tail);
      if Contains(head, OPTIONS) {
        InsertedHere(head, tail, names);
      } else {
        InsertedIs(tail, names);
        var after := Inserted(tail, Directive(names));
        ConsOther(head, after);
        assert ([head] + after)[1..] == after;
      }
    }
  }

  lemma InsertedHere(head: string, tail: seq<string>, names: seq<string>)
    requires !IsIgnoreLine(head) && !HasIgnoreLine(tail) && Words(names) && names != []
    ensures var lines := [head, Directive(names)] + tail;
            && Ignored(lines) == names && Others(lines) == [head] + tail
            && HasIgnoreLine(lines) && Replaced(lines, names) == lines
  {
    hide IsIgnoreLine, Directive, Words, Ignored, Others, HasIgnoreLine, NamesOn;
    var after := [Directive(names)] + tail;
    assert [head, Directive(names)] + tail == [head] + after;
    ConsDirective(names, tail);
    ConsOther(head, after);
    NoIgnoreLine(tail);
    DirectiveReadBack(names);
    assert after[1..] == tail && ([head] + after)[1..] == after;
  }

  lemma OptionsCons(head: string, tail: seq<string>)
    ensures HasOptions([head] + tail) <==> Contains(head, OPTIONS) || HasOptions(tail)
  {
    hide Contains;
    var all := [head] + tail;
    if Contains(head, OPTIONS) {
      assert Contains(all[0], OPTIONS);
    }
    if HasOptions(tail) {
      var i :| 0 <= i < |tail| && Contains(tail[i], OPTIONS);
      assert all[i + 1] == tail[i];
    }
  }

  /** The rewrite says what it was asked to say exactly if it had nothing to say, an IgnorePkg line to replace,
      or an [options] line to go behind; and it keeps every other line, in order. */
  lemma RewriteReadBack(lines: seq<string>, names: seq<string>)
    requires Words(names)
    ensures Ignored(Rewritten(lines, names)) == names <==> names == [] || HasIgnoreLine(lines) || HasOptions(lines)
    ensures Others(Rewritten(lines, names)) == Others(lines)
  {
    hide Ignored, Others, HasOptions, Inserted, Replaced, Directive;
    if HasIgnoreLine(lines) {
      ReplacedIs(lines, names);
    } else {
      NoIgnoreLine(lines);
      if names != [] {
        InsertedIs(lines, names);
      }
    }
  }

  /** Rewriting again with the same list changes nothing. */
  lemma RewriteIdempotent(lines: seq<string>, names: seq<string>)
    requires Words(names)
    ensures Rewritten(Rewritten(lines, names), names) == Rewritten(lines, names)
  {
    hide HasIgnoreLine, HasOptions, Inserted, Replaced, Directive, Words;
    if HasIgnoreLine(lines) {
      ReplacedIs(lines, names);
    } else if names != [] {
      InsertedIs(lines, names);
    }
  }

  lemma {:induction false} RewritePlain(lines: seq<string>, names: seq<string>)
    requires PlainLines(lines) && (names != [] ==> PlainLine(Directive(names)))
    ensures PlainLines(Rewritten(lines, names))
  {
    hide PlainLine, Directive, IsIgnoreLine, Contains;
    if HasIgnoreLine(lines) {
      ReplacedPlain(lines, names);
    } else if names != [] {
      InsertedPlain(lines, Directive(names));
    }
  }

  lemma {:induction false} OthersPlain(lines: seq<string>)
    requires PlainLines(lines)
    ensures PlainLines(Others(lines))
  {
    hide PlainLine, IsIgnoreLine;
    if lines != [] {
      OthersPlain(lines[1..]);
    }
  }

  lemma {:induction false} ReplacedPlain(lines: seq<string>, names: seq<string>)
    requires PlainLines(lines) && (names != [] ==> PlainLine(Directive(names)))
    ensures PlainLines(Replaced(lines, names))
  {
    hide PlainLine, Directive, IsIgnoreLine;
    if lines != [] {
      OthersPlain(lines[1..]);
      ReplacedPlain(lines[1..], names);
    }
  }

  lemma {:induction false} InsertedPlain(lines: seq<string>, line: string)
    requires PlainLines(lines) && PlainLine(line)
    ensures PlainLines(Inserted(lines, line))
  {
    hide PlainLine, Contains;
    if lines != [] {
      InsertedPlain(lines[1..], line);
    }
  }

  lemma {:induction false} WordsHaveNoBreaks(names: seq<string>)
    requires Words(names)
    ensures '\n' !in Join(names) && '\r' !in Join(names)
  {
    if names != [] {
      var w := names[0];
      assert IsWord(w);
      assert forall i :: 0 <= i < |w| ==> w[i] != '\n' && w[i] != '\r';
      if |names| > 1 {
        WordsHaveNoBreaks(names[1..]);
      }
    }
  }

  /** A directive that fits the scanner's buffer is a plain line. */
  lemma DirectivePlain(names: seq<string>)
    requires Words(names)
    ensures PlainLine(Directive(names)) <==> |Directive(names)| < SCANNER_LIMIT
  {
    WordsHaveNoBreaks(names);
    var front := DIRECTIVE + " = ";
    assert '\n' !in front && '\r' !in front;
    assert Directive(names) == front + Join(names);
  }

  lemma NamesHereAreWords(line: string)
    ensures Words(NamesHere(line))
  {
    hide IsIgnoreLine, IsWord, Fields, TrimSpace, IndexByte;
    var t := TrimSpace(line);
    var k := IndexByte(t, '=');
    if k >= 0 {
      FieldsAreWords(TrimSpace(t[k + 1..]));
    }
  }

  lemma {:induction false} IgnoredAreWords(lines: seq<string>)
    ensures Words(Ignored(lines))
  {
    hide NamesHere, IsWord;
    if lines != [] {
      IgnoredAreWords(lines[1..]);
      NamesHereAreWords(lines[0]);
    }
  }

  // ----- Pin and Unpin -----

  predicate Alphanumeric(c: char) {
    'a' <= c <= 'z' || 'A' <= c <= 'Z' || IsDigit(c)
  }

  /** validPackageName: what every package manager's names have to match. */
  predicate ValidName(name: string) {
    && 1 <= |name| <= 256 && Alphanumeric(name[0])
    && forall i :: 0 <= i < |name| ==> Alphanumeric(name[i]) || name[i] in {'.', '_', '+', ':', '/', '@', '~', '-'}
  }

  /** validPacmanPkgName: the stricter grammar of names that are written into the file. */
  predicate ValidPin(name: string) {
    && ValidName(name)
    && forall i :: 0 <= i < |name| ==> Alphanumeric(name[i]) || name[i] in {'.', '_', '+', '-'}
  }

  /** The two grammars as the code writes them: one first character, then others. */
  lemma NameGrammars(s: string)
    ensures ValidName(s) <==>
              && s != [] && Alphanumeric(s[0]) && |s[1..]| <= 255
              && forall d :: d in s[1..] ==> Alphanumeric(d) || d in {'.', '_', '+', ':', '/', '@', '~', '-'}
    ensures ValidPin(s) <==>
              && s != [] && Alphanumeric(s[0]) && |s[1..]| <= 255
              && forall d :: d in s[1..] ==> Alphanumeric(d) || d in {'.', '_', '+', '-'}
  {
    hide Alphanumeric;
    forall i | 1 <= i < |s|
      ensures s[i] in s[1..]
    {
      assert s[i] == s[1..][i - 1];
    }
  }

  predicate AllNames(names: seq<string>, strict: bool) {
    forall i :: 0 <= i < |names| ==> if strict then ValidPin(names[i]) else ValidName(names[i])
  }

  function Added(names: seq<string>, packages: seq<string>): seq<string> {
    if packages == [] then names
    else
      var before, last := Added(names, packages[..|packages| - 1]), packages[|packages| - 1];
      if last in before then before else before + [last]
  }

  function Kept(names: seq<string>, packages: seq<string>): seq<string> {
    if names == [] then []
    else
      var before, last := Kept(names[..|names| - 1], packages), names[|names| - 1];
      if last in packages then before else before + [last]
  }

  predicate Distinct(names: seq<string>) {
    forall i, j :: 0 <= i < j < |names| ==> names[i] != names[j]
  }

  /** `a` is `b` with some elements left out. */
  predicate Subsequence(a: seq<string>, b: seq<string>)
    decreases |b|
  {
    if b == [] then a == []
    else
      || (a != [] && a[|a| - 1] == b[|b| - 1] && Subsequence(a[..|a| - 1], b[..|b| - 1]))
      || Subsequence(a, b[..|b| - 1])
  }

  /** Pinning keeps the list there was and puts behind it exactly the packages that were not on it, in the order
      given, each once. */
  lemma {:induction false} AddedBehind(names: seq<string>, packages: seq<string>)
    ensures names <= Added(names, packages)
    ensures var added := Added(names, packages)[|names|..];
            && Subsequence(added, packages) && Distinct(added)
            && forall p :: p in added <==> p in packages && p !in names
  {
    if packages != [] {
      var init, last := packages[..|packages| - 1], packages[|packages| - 1];
      assert packages == init + [last];
      AddedBehind(names, init);
      var before := Added(names, init);
      var added := before[|names|..];
      assert before == names + added;
      if last !in before {
        assert (before + [last])[|names|..] == added + [last];
        assert (added + [last])[..|added|] == added;
      }
    }
  }

  datatype Op = Pin(packages: seq<string>) | Unpin(packages: seq<string>)

  /** The list an operation writes. */
  function Wanted(conf: string, op: Op): seq<string> {
    if op.Pin? then Added(Ignored(Lines(conf)), op.packages) else Kept(Ignored(Lines(conf)), op.packages)
  }

  /** The file after an operation that succeeded. */
  function Edited(conf: string, op: Op): string {
    if op.packages == [] then conf else Unlines(Rewritten(Lines(conf), Wanted(conf, op)))
  }

  class ConfFile {
    var conf: string

    /** Pin. Reading the file may fail, and writing it: tee then leaves any text behind. */
    method Pin(packages: seq<string>, readable: bool, writable: bool) returns (ok: bool)
      modifies this
      ensures ok <==> AllNames(packages, true) && (packages == [] || (readable && writable))
      ensures ok ==> conf == Edited(old(conf), Op.Pin(packages))
      ensures !ok && (!AllNames(packages, true) || !readable) ==> conf == old(conf)
    {
      hide Lines, Ignored, Rewritten, Unlines, ValidName;
      if !AllNames(packages, false) {
        return false;
      }
      if |packages| == 0 {
        return true;
      }
      if !AllNames(packages, true) || !readable {
        return false;
      }
      if !writable {
        conf := *;
        return false;
      }
      var current := GetIgnoredPackages(conf);
      var ignored := current;
      for i := 0 to |packages|
        invariant ignored == Added(current, packages[..i])
      {
        assert packages[..i + 1][..i] == packages[..i];
        if packages[i] !in ignored {
          ignored := ignored + [packages[i]];
        }
      }
      assert packages[..|packages|] == packages;
      conf := BuildIgnorePkgConf(conf, ignored);
      return true;
    }

    method Unpin(packages: seq<string>, readable: bool, writable: bool) returns (ok: bool)
      modifies this
      ensures ok <==> AllNames(packages, false) && (packages == [] || (readable && writable))
      ensures ok ==> conf == Edited(old(conf), Op.Unpin(packages))
      ensures !ok && (!AllNames(packages, false) || !readable) ==> conf == old(conf)
    {
      hide Lines, Ignored, Rewritten, Unlines, ValidName;
      if !AllNames(packages, false) {
        return false;
      }
      if |packages| == 0 {
        return true;
      }
      if !readable {
        return false;
      }
      if !writable {
        conf := *;
        return false;
      }
      var current := GetIgnoredPackages(conf);
      var kept: seq<string> := [];
      for i := 0 to |current|
        invariant kept == Kept(current[..i], packages)
      {
        assert current[..i + 1][..i] == current[..i];
        if current[i] !in packages {
          kept := kept + [current[i]];
        }
      }
      assert current[..|current|] == current;
      conf := BuildIgnorePkgConf(conf, kept);
      return true;
    }

    method IsPinned(name: string, readable: bool) returns (pinned: Option<bool>)
      ensures pinned.Some? <==> ValidName(name) && readable
      ensures pinned.Some? ==> pinned.value == (name in Ignored(Lines(conf)))
    {
      if !ValidName(name) || !readable {
        return None;
      }
      var ignored := GetIgnoredPackages(conf);
      return Some(name in ignored);
    }
  }

  // ----- whole histories -----

  ghost function SetOf(names: seq<string>): set<string> {
    set n | n in names
  }

  lemma SetOfMore(names: seq<string>, name: string)
    ensures SetOf(names + [name]) == SetOf(names) + {name}
  {
  }

  lemma {:induction false} AddedSet(names: seq<string>, packages: seq<string>)
    ensures SetOf(Added(names, packages)) == SetOf(names) + SetOf(packages)
  {
    if packages != [] {
      var init, last := packages[..|packages| - 1], packages[|packages| - 1];
      var before := Added(names, init);
      AddedSet(names, init);
      assert packages == init + [last];
      SetOfMore(init, last);
      SetOfMore(before, last);
      assert last in before <==> last in SetOf(before);
      if last in before {
        assert SetOf(before) + {last} == SetOf(before);
      }
    }
  }

  lemma {:induction false} AddedWords(names: seq<string>, packages: seq<string>)
    requires Words(names) && AllNames(packages, true)
    ensures Words(Added(names, packages))
  {
    hide ValidName, IsWord;
    if packages != [] {
      AddedWords(names, packages[..|packages| - 1]);
      assert ValidPin(packages[|packages| - 1]);
      PinIsWord(packages[|packages| - 1]);
    }
  }

  lemma AddedIs(names: seq<string>, packages: seq<string>)
    ensures SetOf(Added(names, packages)) == SetOf(names) + SetOf(packages)
    ensures Words(names) && AllNames(packages, true) ==> Words(Added(names, packages))
  {
    hide Words, AllNames, Added;
    AddedSet(names, packages);
    if Words(names) && AllNames(packages, true) {
      AddedWords(names, packages);
    }
  }

  lemma PinIsWord(name: string)
    requires ValidPin(name)
    ensures IsWord(name)
  {
    forall i | 0 <= i < |name|
      ensures !IsSpace(name[i])
    {
    }
  }

  lemma {:induction false} KeptIs(names: seq<string>, packages: seq<string>)
    ensures SetOf(Kept(names, packages)) == SetOf(names) - SetOf(packages)
    ensures Words(names) ==> Words(Kept(names, packages))
  {
    hide IsWord;
    if names != [] {
      var init := names[..|names| - 1];
      var last := names[|names| - 1];
      KeptIs(init, packages);
      assert names == init + [last];
      SetOfMore(init, last);
      SetOfMore(Kept(init, packages), last);
      assert last in packages <==> last in SetOf(packages);
    }
  }

  function After(conf: string, ops: seq<Op>): string {
    if ops == [] then conf else Edited(After(conf, ops[..|ops| - 1]), ops[|ops| - 1])
  }

  ghost function Folded(pinned: set<string>, ops: seq<Op>): set<string> {
    if ops == [] then pinned
    else
      var before, op := Folded(pinned, ops[..|ops| - 1]), ops[|ops| - 1];
      if op.Pin? then before + SetOf(op.packages) else before - SetOf(op.packages)
  }

  /** The operations that can succeed, and whose consolidated directive fits the scanner's buffer. */
  predicate Admissible(conf: string, op: Op) {
    AllNames(op.packages, op.Pin?) && |Directive(Wanted(conf, op))| < SCANNER_LIMIT
  }

  predicate AllAdmissible(conf: string, ops: seq<Op>) {
    forall i :: 0 <= i < |ops| ==> Admissible(After(conf, ops[..i]), ops[i])
  }

  /** A file whose lines are all delivered, with an [options] line that is not an IgnorePkg line. */
  predicate Healthy(conf: string) {
    PlainConf(conf) && HasOptions(Others(Lines(conf)))
  }

  lemma WantedIs(conf: string, op: Op)
    requires AllNames(op.packages, op.Pin?)
    ensures Words(Wanted(conf, op))
    ensures var pinned := SetOf(Ignored(Lines(conf)));
            SetOf(Wanted(conf, op)) == if op.Pin? then pinned + SetOf(op.packages) else pinned - SetOf(op.packages)
  {
    hide Words, Added, Kept, Lines, Ignored;
    var current := Ignored(Lines(conf));
    IgnoredAreWords(Lines(conf));
    AddedIs(current, op.packages);
    KeptIs(current, op.packages);
  }

  /** One operation on a healthy file: it says what was wanted, keeps all other lines, and leaves the file
      healthy. */
  lemma EditedIs(conf: string, op: Op)
    requires Healthy(conf) && Admissible(conf, op)
    ensures var pinned := SetOf(Ignored(Lines(conf)));
            SetOf(Ignored(Lines(Edited(conf, op)))) == if op.Pin? then pinned + SetOf(op.packages) else pinned - SetOf(op.packages)
    ensures Others(Lines(Edited(conf, op))) == Others(Lines(conf)) && Healthy(Edited(conf, op))
  {
    hide Words, Wanted, Ignored, Others, HasOptions, Rewritten, Unlines, Directive, AllNames, RawLines, Scanned;
    if op.packages != [] {
      var lines, names := Lines(conf), Wanted(conf, op);
      WantedIs(conf, op);
      DirectivePlain(names);
      PlainScanned(RawLines(conf));
      RewritePlain(lines, names);
      LinesOfUnlines(Rewritten(lines, names));
      RewriteReadBack(lines, names);
      OptionsSomewhere(lines);
    } else {
      assert SetOf(op.packages) == {};
    }
  }

  lemma OptionsSomewhere(lines: seq<string>)
    requires HasOptions(Others(lines))
    ensures HasIgnoreLine(lines) || HasOptions(lines)
  {
    hide IsIgnoreLine, Contains;
    if !HasIgnoreLine(lines) {
      NoIgnoreLine(lines);
    }
  }

  /** After any history of successful operations on a healthy file, the pinned set is the fold of unions and
      differences over the initial set, and every line that is no IgnorePkg line is still there, in order. */
  lemma {:induction false} HistoryIsFold(conf: string, ops: seq<Op>)
    requires Healthy(conf) && AllAdmissible(conf, ops)
    ensures SetOf(Ignored(Lines(After(conf, ops)))) == Folded(SetOf(Ignored(Lines(conf))), ops)
    ensures Others(Lines(After(conf, ops))) == Others(Lines(conf)) && Healthy(After(conf, ops))
  {
    hide Healthy, Admissible, Edited, Lines, Ignored, Others, SetOf;
    if ops != [] {
      var init, op := ops[..|ops| - 1], ops[|ops| - 1];
      forall i | 0 <= i < |init|
        ensures Admissible(After(conf, init[..i]), init[i])
      {
        assert init[..i] == ops[..i] && init[i] == ops[i];
      }
      HistoryIsFold(conf, init);
      assert Admissible(After(conf, ops[..|ops| - 1]), ops[|ops| - 1]);
      EditedIs(After(conf, init), op);
    }
  }

  /** A second rewrite with the same list leaves the file byte for byte as it is. */
  lemma RewriteStable(conf: string, names: seq<string>)
    requires PlainConf(conf) && Words(names) && |Directive(names)| < SCANNER_LIMIT
    ensures var once := Unlines(Rewritten(Lines(conf), names));
            Unlines(Rewritten(Lines(once), names)) == once
  {
    hide Words, Rewritten, Unlines, Directive, RawLines, Scanned;
    DirectivePlain(names);
    PlainScanned(RawLines(conf));
    RewritePlain(Lines(conf), names);
    LinesOfUnlines(Rewritten(Lines(conf), names));
    RewriteIdempotent(Lines(conf), names);
  }
}
