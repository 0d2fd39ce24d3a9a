/**
 What pinning does to pacman.conf as a file (pkg/pacman.go). The rewriter sees the file through bufio.Scanner and
 ignores the scanner's error: a line that does not fit the buffer ends the scan, and the rest of the file is not
 written back. A carriage return at the end of a line is not written back either.
 */
module PacmanFile {
  import opened Text
  import opened Pacman

  predicate EndsInCR(line: string) {
    line != [] && line[|line| - 1] == '\r'
  }

  predicate AllIgnoreLines(raw: seq<string>) {
    forall i :: 0 <= i < |raw| ==> IsIgnoreLine(raw[i])
  }

  /** The lines up to number `n` fit the scanner's buffer. */
  predicate Fits(raw: seq<string>, n: nat)
    requires n < |raw|
  {
    forall j :: 0 <= j <= n ==> |raw[j]| < SCANNER_LIMIT
  }

  /** Every line that is no IgnorePkg line reaches the rewriter, and does so unchanged. */
  predicate AllDelivered(raw: seq<string>) {
    forall i :: 0 <= i < |raw| && !IsIgnoreLine(raw[i]) ==> !EndsInCR(raw[i]) && Fits(raw, i)
  }

  // ----- what the scanner delivers -----

  lemma {:induction false} NoOthers(raw: seq<string>)
    ensures Others(raw) == [] <==> AllIgnoreLines(raw)
  {
    hide IsIgnoreLine;
    if raw != [] {
      NoOthers(raw[1..]);
      assert raw == [raw[0]] + raw[1..];
    }
  }

  lemma TrimRightAgain(s: string)
    ensures TrimRight(s + ['\r']) == TrimRight(s)
  {
    assert (s + ['\r'])[..|s|] == s;
  }

  lemma {:induction false} TrimLeftThenCR(s: string)
    ensures TrimLeft(s + ['\r']) == if TrimLeft(s) == [] then [] else TrimLeft(s) + ['\r']
  {
    if s == [] {
      assert (s + ['\r'])[1..] == [];
    } else if IsSpace(s[0]) {
      TrimLeftThenCR(s[1..]);
      assert (s + ['\r'])[1..] == s[1..] + ['\r'];
    }
  }

  /** Neither whether a line is an IgnorePkg line nor the names on it depend on its carriage return. */
  lemma DropKeepsKind(line: string)
    ensures IsIgnoreLine(DropCR(line)) <==> IsIgnoreLine(line)
    ensures NamesHere(DropCR(line)) == NamesHere(line)
  {
    hide TrimLeft, TrimRight, Fields;
    if EndsInCR(line) {
      assert line == DropCR(line) + ['\r'];
      TrimLeftThenCR(DropCR(line));
      TrimRightAgain(TrimLeft(DropCR(line)));
    }
  }

  lemma DeliveredFirst(raw: seq<string>)
    requires raw != [] && |raw[0]| < SCANNER_LIMIT
    ensures AllDelivered(raw) <==> (IsIgnoreLine(raw[0]) || !EndsInCR(raw[0])) && AllDelivered(raw[1..])
  {
    hide IsIgnoreLine, EndsInCR, Fits;
    var rest := raw[1..];
    if AllDelivered(raw) {
      forall i | 0 <= i < |rest| && !IsIgnoreLine(rest[i])
        ensures !EndsInCR(rest[i]) && Fits(rest, i)
      {
        assert rest[i] == raw[i + 1];
        FitsRest(raw, i);
      }
    } else if AllDelivered(rest) {
      var i :| 0 <= i < |raw| && !IsIgnoreLine(raw[i]) && !(!EndsInCR(raw[i]) && Fits(raw, i));
      if i > 0 {
        assert raw[i] == rest[i - 1];
        FitsRest(raw, i - 1);
      } else {
        assert Fits(raw, 0) by { FitsFirst(raw); }
      }
    }
  }

  lemma FitsFirst(raw: seq<string>)
    requires raw != []
    ensures Fits(raw, 0) <==> |raw[0]| < SCANNER_LIMIT
  {
  }

  lemma FitsRest(raw: seq<string>, n: nat)
    requires raw != [] && |raw[0]| < SCANNER_LIMIT && n < |raw| - 1
    ensures Fits(raw[1..], n) <==> Fits(raw, n + 1)
  {
    if Fits(raw[1..], n) {
      forall j | 0 <= j <= n + 1
        ensures |raw[j]| < SCANNER_LIMIT
      {
        if j > 0 {
          assert raw[j] == raw[1..][j - 1];
        }
      }
    }
  }

  lemma TooLongFirst(raw: seq<string>)
    requires raw != [] && |raw[0]| >= SCANNER_LIMIT
    ensures AllDelivered(raw) <==> AllIgnoreLines(raw)
  {
    hide IsIgnoreLine, EndsInCR;
  }

  /** The lines that are none of ours come through the scanner as they are exactly if all are delivered. */
  lemma {:induction false} ScanKeepsOthers(raw: seq<string>)
    ensures Others(Scanned(raw)) == Others(raw) <==> AllDelivered(raw)
  {
    hide IsIgnoreLine, AllDelivered;
    if raw == [] {
      NothingToDeliver();
    } else if |raw[0]| >= SCANNER_LIMIT {
      NoOthers(raw);
      TooLongFirst(raw);
    } else {
      ScanKeepsOthers(raw[1..]);
      DeliveredFirst(raw);
      DropKeepsKind(raw[0]);
      var first := DropCR(raw[0]);
      var scanned := Scanned(raw[1..]);
      assert ([first] + scanned)[1..] == scanned;
      assert Others(Scanned(raw)) == OtherHere(first) + Others(scanned);
      assert Others(raw) == OtherHere(raw[0]) + Others(raw[1..]);
      if IsIgnoreLine(raw[0]) {
        assert Others(Scanned(raw)) == Others(scanned) && Others(raw) == Others(raw[1..]);
      } else {
        SameCons(first, Others(scanned), raw[0], Others(raw[1..]));
      }
    }
  }

  lemma NothingToDeliver()
    ensures AllDelivered([])
  {
  }

  lemma SameCons(x: string, a: seq<string>, y: string, b: seq<string>)
    ensures [x] + a == [y] + b <==> x == y && a == b
  {
    if [x] + a == [y] + b {
      assert ([x] + a)[0] == x && ([y] + b)[0] == y;
      assert ([x] + a)[1..] == a && ([y] + b)[1..] == b;
    }
  }

  // ----- what is written back -----

  /** Every line of `lines` is one of `source` or the directive. */
  predicate ComeFrom(lines: seq<string>, source: seq<string>, names: seq<string>) {
    forall l :: l in lines ==> l in source || (names != [] && l == Directive(names))
  }

  lemma {:induction false} OthersComeFrom(lines: seq<string>)
    ensures forall l :: l in Others(lines) ==> l in lines
  {
    hide IsIgnoreLine;
    if lines != [] {
      OthersComeFrom(lines[1..]);
    }
  }

  lemma {:induction false} ReplacedComeFrom(lines: seq<string>, names: seq<string>)
    ensures ComeFrom(Replaced(lines, names), lines, names)
  {
    hide IsIgnoreLine, Directive;
    if lines != [] {
      ReplacedComeFrom(lines[1..], names);
      OthersComeFrom(lines[1..]);
    }
  }

  lemma {:induction false} InsertedComeFrom(lines: seq<string>, names: seq<string>)
    requires names != []
    ensures ComeFrom(Inserted(lines, Directive(names)), lines, names)
  {
    hide Directive;
    if lines != [] {
      InsertedComeFrom(lines[1..], names);
    }
  }

  lemma RewrittenNoBreaks(lines: seq<string>, names: seq<string>)
    requires NoBreaks(lines) && Words(names)
    ensures NoBreaks(Rewritten(lines, names))
  {
    hide Words, Replaced, Inserted, HasIgnoreLine, Directive;
    DirectiveNoBreak(names);
    ReplacedComeFrom(lines, names);
    if names != [] {
      InsertedComeFrom(lines, names);
    }
    forall i | 0 <= i < |Rewritten(lines, names)|
      ensures '\n' !in Rewritten(lines, names)[i]
    {
      var l := Rewritten(lines, names)[i];
      assert l in Rewritten(lines, names);
    }
  }

  lemma DirectiveNoBreak(names: seq<string>)
    requires Words(names)
    ensures '\n' !in Directive(names)
  {
    WordsHaveNoBreaks(names);
    var front := DIRECTIVE + " = ";
    assert '\n' !in front;
  }

  /** A successful operation that writes the file leaves its other lines as they are exactly if none of them ends
      in a carriage return and no line up to the last of them is too long for the scanner. */
  lemma EditKeepsFile(conf: string, op: Op)
    requires AllNames(op.packages, op.Pin?) && op.packages != []
    ensures Others(RawLines(Edited(conf, op))) == Others(RawLines(conf)) <==> AllDelivered(RawLines(conf))
  {
    hide Words, Wanted, Others, Rewritten, Unlines, RawLines, Scanned, AllNames, AllDelivered;
    var lines, names := Lines(conf), Wanted(conf, op);
    WantedIs(conf, op);
    ScannedHasNoBreak(conf);
    RewrittenNoBreaks(lines, names);
    RawOfUnlines(Rewritten(lines, names));
    RewriteReadBack(lines, names);
    ScanKeepsOthers(RawLines(conf));
  }

  // ----- when pinning takes effect -----

  predicate Short(lines: seq<string>) {
    forall i :: 0 <= i < |lines| ==> |lines[i]| < SCANNER_LIMIT
  }

  lemma {:induction false} ScannedAreShort(raw: seq<string>)
    ensures Short(Scanned(raw))
  {
    if raw != [] {
      ScannedAreShort(raw[1..]);
    }
  }

  lemma {:induction false} ShortAreRead(lines: seq<string>)
    requires Short(lines)
    ensures Ignored(Scanned(lines)) == Ignored(lines)
  {
    hide NamesHere;
    if lines != [] {
      ShortAreRead(lines[1..]);
      DropKeepsKind(lines[0]);
      ReadFirst(DropCR(lines[0]), Scanned(lines[1..]));
    }
  }

  lemma ReadFirst(line: string, lines: seq<string>)
    ensures Ignored([line] + lines) == NamesHere(line) + Ignored(lines)
  {
    hide NamesHere;
    assert ([line] + lines)[1..] == lines;
  }

  lemma RewrittenAreShort(lines: seq<string>, names: seq<string>)
    requires Short(lines) && (names != [] ==> |Directive(names)| < SCANNER_LIMIT)
    ensures Short(Rewritten(lines, names))
  {
    hide Replaced, Inserted, HasIgnoreLine, Directive;
    ReplacedComeFrom(lines, names);
    if names != [] {
      InsertedComeFrom(lines, names);
    }
    forall i | 0 <= i < |Rewritten(lines, names)|
      ensures |Rewritten(lines, names)[i]| < SCANNER_LIMIT
    {
      assert Rewritten(lines, names)[i] in Rewritten(lines, names);
    }
  }

  /** A line that fits is read, and then the rest is. */
  lemma ReadThrough(line: string, rest: seq<string>)
    ensures Ignored(Scanned([line] + rest)) == if |line| >= SCANNER_LIMIT then [] else NamesHere(line) + Ignored(Scanned(rest))
  {
    hide NamesHere;
    assert ([line] + rest)[1..] == rest;
    DropKeepsKind(line);
    ReadFirst(DropCR(line), Scanned(rest));
  }

  lemma {:induction false} LongReplacedIsLost(lines: seq<string>, names: seq<string>)
    requires HasIgnoreLine(lines) && names != [] && |Directive(names)| >= SCANNER_LIMIT
    ensures Ignored(Scanned(Replaced(lines, names))) == []
  {
    hide IsIgnoreLine, Directive, Ignored;
    if IsIgnoreLine(lines[0]) {
      assert Replaced(lines, names)[0] == Directive(names);
      IgnoredNone();
    } else {
      var i :| 0 <= i < |lines| && IsIgnoreLine(lines[i]);
      assert IsIgnoreLine(lines[1..][i - 1]);
      LongReplacedIsLost(lines[1..], names);
      ReadThrough(lines[0], Replaced(lines[1..], names));
    }
  }

  lemma {:induction false} LongInsertedIsLost(lines: seq<string>, names: seq<string>)
    requires !HasIgnoreLine(lines) && names != [] && |Directive(names)| >= SCANNER_LIMIT
    ensures Ignored(Scanned(Inserted(lines, Directive(names)))) == []
  {
    hide IsIgnoreLine, Directive, Contains, Ignored;
    IgnoredNone();
    if lines != [] {
      assert forall i :: 0 <= i < |lines[1..]| ==> lines[1..][i] == lines[i + 1];
      if Contains(lines[0], OPTIONS) {
        var after := [Directive(names)] + lines[1..];
        assert Inserted(lines, Directive(names)) == [lines[0]] + after;
        assert after[0] == Directive(names);
        ReadThrough(lines[0], after);
      } else {
        LongInsertedIsLost(lines[1..], names);
        ReadThrough(lines[0], Inserted(lines[1..], Directive(names)));
      }
    }
  }

  /** The rewrite has a place for the directive, and the directive fits the scanner's buffer. */
  predicate TakesEffect(lines: seq<string>, names: seq<string>) {
    (HasIgnoreLine(lines) || HasOptions(lines)) && |Directive(names)| < SCANNER_LIMIT
  }

  lemma ReadBackOfRewrite(lines: seq<string>, names: seq<string>)
    requires Short(lines) && Words(names)
    ensures Ignored(Scanned(Rewritten(lines, names))) == if TakesEffect(lines, names) then names else []
  {
    hide Ignored, Scanned, HasIgnoreLine, HasOptions, Directive, Short, Words, Replaced, Inserted, Others;
    RewriteReadBack(lines, names);
    if names == [] || |Directive(names)| < SCANNER_LIMIT {
      RewrittenAreShort(lines, names);
      ShortAreRead(Rewritten(lines, names));
      if !HasIgnoreLine(lines) && names != [] {
        NoIgnoreLine(lines);
        InsertedIs(lines, names);
      }
    } else if HasIgnoreLine(lines) {
      LongReplacedIsLost(lines, names);
    } else {
      LongInsertedIsLost(lines, names);
    }
  }

  /** On any file: after a successful operation the pinned list read back is the one wanted if the scanner
      delivered an IgnorePkg line or an [options] line and the directive fits its buffer, and otherwise none,
      whatever was pinned before. */
  lemma EditTakesEffect(conf: string, op: Op)
    requires AllNames(op.packages, op.Pin?) && op.packages != []
    ensures Ignored(Lines(Edited(conf, op))) == if TakesEffect(Lines(conf), Wanted(conf, op)) then Wanted(conf, op) else []
  {
    hide Words, Wanted, Ignored, Rewritten, Unlines, RawLines, Scanned, AllNames, TakesEffect, Short;
    var lines, names := Lines(conf), Wanted(conf, op);
    WantedIs(conf, op);
    ScannedHasNoBreak(conf);
    ScannedAreShort(RawLines(conf));
    RewrittenNoBreaks(lines, names);
    RawOfUnlines(Rewritten(lines, names));
    ReadBackOfRewrite(lines, names);
  }

  // ----- when a second rewrite changes nothing -----

  predicate NoCRs(lines: seq<string>) {
    forall i :: 0 <= i < |lines| ==> !EndsInCR(lines[i])
  }

  lemma {:induction false} ScannedSame(lines: seq<string>)
    requires Short(lines)
    ensures Scanned(lines) == lines <==> NoCRs(lines)
    ensures |Scanned(lines)| == |lines|
  {
    hide EndsInCR;
    if lines != [] {
      ScannedSame(lines[1..]);
      DropChanges(lines[0]);
      SameCons(DropCR(lines[0]), Scanned(lines[1..]), lines[0], lines[1..]);
      assert lines == [lines[0]] + lines[1..];
    }
  }

  lemma DropChanges(line: string)
    ensures DropCR(line) == line <==> !EndsInCR(line)
  {
  }

  lemma {:induction false} ScannedKind(lines: seq<string>)
    requires Short(lines)
    ensures HasIgnoreLine(Scanned(lines)) <==> HasIgnoreLine(lines)
  {
    hide IsIgnoreLine;
    if lines != [] {
      ScannedKind(lines[1..]);
      DropKeepsKind(lines[0]);
      assert lines == [lines[0]] + lines[1..];
      HasIgnoreAppend([lines[0]], lines[1..]);
      HasIgnoreAppend([DropCR(lines[0])], Scanned(lines[1..]));
      OneIgnoreLine(lines[0]);
      OneIgnoreLine(DropCR(lines[0]));
    }
  }

  lemma OneIgnoreLine(line: string)
    ensures HasIgnoreLine([line]) <==> IsIgnoreLine(line)
  {
    hide IsIgnoreLine;
    assert [line][0] == line;
  }

  /** The only IgnorePkg line a rewrite leaves is its own. */
  lemma {:induction false} ReplacedIgnore(lines: seq<string>, names: seq<string>)
    ensures forall l :: l in Replaced(lines, names) && IsIgnoreLine(l) ==> l in DirectiveLines(names)
  {
    hide IsIgnoreLine, DirectiveLines;
    if lines != [] {
      ReplacedIgnore(lines[1..], names);
      OthersAreOthers(lines[1..]);
      assert forall l :: l in Others(lines[1..]) ==> !IsIgnoreLine(l);
    }
  }

  lemma {:induction false} InsertedIgnore(lines: seq<string>, names: seq<string>)
    requires !HasIgnoreLine(lines) && names != []
    ensures forall l :: l in Inserted(lines, Directive(names)) && IsIgnoreLine(l) ==> l in DirectiveLines(names)
  {
    hide IsIgnoreLine, Directive, Contains;
    InsertedComeFrom(lines, names);
    assert forall l :: l in lines ==> !IsIgnoreLine(l);
  }

  lemma RewrittenIgnore(lines: seq<string>, names: seq<string>)
    ensures forall l :: l in Rewritten(lines, names) && IsIgnoreLine(l) ==> l in DirectiveLines(names)
  {
    hide IsIgnoreLine, Directive, Replaced, Inserted, DirectiveLines;
    if HasIgnoreLine(lines) {
      ReplacedIgnore(lines, names);
    } else if names != [] {
      InsertedIgnore(lines, names);
    } else {
      assert forall l :: l in lines ==> !IsIgnoreLine(l);
    }
  }

  lemma {:induction false} OthersHold(lines: seq<string>)
    ensures forall l :: l in lines && !IsIgnoreLine(l) ==> l in Others(lines)
    ensures forall l :: l in Others(lines) ==> l in lines
  {
    hide IsIgnoreLine;
    if lines != [] {
      OthersHold(lines[1..]);
    }
  }

  lemma DirectiveNoCR(names: seq<string>)
    requires Words(names)
    ensures forall l :: l in DirectiveLines(names) ==> !EndsInCR(l)
  {
    WordsHaveNoBreaks(names);
    var front := DIRECTIVE + " = ";
    assert '\r' !in front;
    assert Directive(names) == front + Join(names);
  }

  /** The rewritten lines are free of trailing carriage returns exactly if the other lines are. */
  lemma RewrittenNoCRs(lines: seq<string>, names: seq<string>)
    requires Words(names)
    ensures NoCRs(Rewritten(lines, names)) <==> NoCRs(Others(lines))
  {
    hide Words, Rewritten, Others, IsIgnoreLine, EndsInCR, DirectiveLines;
    var r := Rewritten(lines, names);
    RewriteReadBack(lines, names);
    RewrittenIgnore(lines, names);
    DirectiveNoCR(names);
    OthersHold(r);
    if NoCRs(Others(lines)) {
      forall i | 0 <= i < |r|
        ensures !EndsInCR(r[i])
      {
        assert r[i] in r;
        if !IsIgnoreLine(r[i]) {
          assert r[i] in Others(r);
        }
      }
    }
    if NoCRs(r) {
      forall i | 0 <= i < |Others(r)|
        ensures !EndsInCR(Others(r)[i])
      {
        assert Others(r)[i] in r;
      }
    }
  }

  lemma SameFile(a: seq<string>, b: seq<string>)
    requires NoBreaks(a) && NoBreaks(b)
    ensures Unlines(a) == Unlines(b) <==> a == b
  {
    hide NoBreaks, Unlines, RawLines;
    RawOfUnlines(a);
    RawOfUnlines(b);
  }

  /** Rewriting short lines a second time. */
  lemma ShortStable(lines: seq<string>, names: seq<string>)
    requires Words(names) && Short(Rewritten(lines, names))
    ensures Rewritten(Scanned(Rewritten(lines, names)), names) == Rewritten(lines, names) <==> NoCRs(Others(lines))
  {
    hide Words, Rewritten, Others, Scanned, Short, NoCRs, AllDelivered;
    var r := Rewritten(lines, names);
    RewrittenNoCRs(lines, names);
    ScannedSame(r);
    if NoCRs(r) {
      RewriteIdempotent(lines, names);
    } else if Rewritten(Scanned(r), names) == r {
      RewriteReadBack(Scanned(r), names);
      RewriteReadBack(lines, names);
      ScanKeepsOthers(r);
      DeliveredNoCRs(r);
    }
  }

  lemma DeliveredNoCRs(lines: seq<string>)
    requires AllDelivered(lines)
    ensures NoCRs(Others(lines))
  {
    hide IsIgnoreLine, EndsInCR, Others;
    OthersAreOthers(lines);
    OthersHold(lines);
    forall i | 0 <= i < |Others(lines)|
      ensures !EndsInCR(Others(lines)[i])
    {
      var l := Others(lines)[i];
      assert l in lines && !IsIgnoreLine(l);
      var k :| 0 <= k < |lines| && lines[k] == l;
    }
  }

  // A directive that is too long for the scanner: the second rewrite sees the lines in front of it only.

  lemma {:induction false} ReplacedSplit(lines: seq<string>, names: seq<string>) returns (a: seq<string>, b: seq<string>)
    requires HasIgnoreLine(lines) && names != []
    ensures Replaced(lines, names) == a + [Directive(names)] + b && Others(lines) == a + b
  {
    hide IsIgnoreLine, Directive;
    if IsIgnoreLine(lines[0]) {
      a, b := [], Others(lines[1..]);
    } else {
      var i :| 0 <= i < |lines| && IsIgnoreLine(lines[i]);
      assert IsIgnoreLine(lines[1..][i - 1]);
      a, b := ReplacedSplit(lines[1..], names);
      Regroup([lines[0]], a + [Directive(names)], b);
      Regroup([lines[0]], a, [Directive(names)]);
      Regroup([lines[0]], a, b);
      a := [lines[0]] + a;
    }
  }

  lemma {:induction false} InsertedSplit(lines: seq<string>, names: seq<string>) returns (a: seq<string>, b: seq<string>)
    requires HasOptions(lines)
    ensures Inserted(lines, Directive(names)) == a + [Directive(names)] + b && lines == a + b
  {
    hide Directive, Contains;
    if Contains(lines[0], OPTIONS) {
      a, b := [lines[0]], lines[1..];
      assert [lines[0], Directive(names)] + b == a + [Directive(names)] + b;
    } else {
      var i :| 0 <= i < |lines| && Contains(lines[i], OPTIONS);
      assert Contains(lines[1..][i - 1], OPTIONS);
      a, b := InsertedSplit(lines[1..], names);
      Regroup([lines[0]], a + [Directive(names)], b);
      Regroup([lines[0]], a, [Directive(names)]);
      Regroup([lines[0]], a, b);
      a := [lines[0]] + a;
    }
  }

  lemma RewrittenSplit(lines: seq<string>, names: seq<string>) returns (a: seq<string>, b: seq<string>)
    requires (HasIgnoreLine(lines) || HasOptions(lines)) && names != []
    ensures Rewritten(lines, names) == a + [Directive(names)] + b && Others(lines) == a + b
  {
    hide IsIgnoreLine, Directive, Contains, Replaced, Inserted, Others, Ignored;
    if HasIgnoreLine(lines) {
      a, b := ReplacedSplit(lines, names);
    } else {
      a, b := InsertedSplit(lines, names);
      NoIgnoreLine(lines);
    }
  }

  lemma {:induction false} ScannedStops(a: seq<string>, long: string, b: seq<string>)
    requires Short(a) && |long| >= SCANNER_LIMIT
    ensures Scanned(a + [long] + b) == Scanned(a)
  {
    var all := a + [long] + b;
    if a == [] {
      assert all[0] == long;
    } else {
      ScannedStops(a[1..], long, b);
      assert all[0] == a[0] && all[1..] == a[1..] + [long] + b;
    }
  }

  /** The first line with [options] is the last line. */
  predicate OptionsLast(lines: seq<string>) {
    lines != [] && Contains(lines[|lines| - 1], OPTIONS) && !HasOptions(lines[..|lines| - 1])
  }

  lemma OptionsLastCons(head: string, tail: seq<string>)
    ensures OptionsLast([head] + tail) <==> if tail == [] then Contains(head, OPTIONS) else !Contains(head, OPTIONS) && OptionsLast(tail)
  {
    hide Contains;
    var all := [head] + tail;
    if tail == [] {
      assert all[..0] == [];
    } else {
      assert all[..|all| - 1] == [head] + tail[..|tail| - 1];
      OptionsCons(head, tail[..|tail| - 1]);
    }
  }

  lemma {:induction false} InsertedAtEnd(lines: seq<string>, names: seq<string>)
    requires !HasIgnoreLine(lines) && IsIgnoreLine(Directive(names))
    ensures Inserted(lines, Directive(names)) == lines + [Directive(names)] <==> OptionsLast(lines)
  {
    hide IsIgnoreLine, Directive, Contains, OptionsLast;
    var d := Directive(names);
    if lines == [] {
      NoOptionsLast();
    } else {
      var head, tail := lines[0], lines[1..];
      assert lines == [head] + tail && forall i :: 0 <= i < |tail| ==> tail[i] == lines[i + 1];
      OptionsLastCons(head, tail);
      Regroup([head], tail, [d]);
      if Contains(head, OPTIONS) {
        assert [head, d] + tail == [head] + ([d] + tail);
        SameCons(head, [d] + tail, head, tail + [d]);
        if tail != [] {
          assert ([d] + tail)[0] == d && (tail + [d])[0] == lines[1];
        }
      } else {
        InsertedAtEnd(tail, names);
        SameCons(head, Inserted(tail, d), head, tail + [d]);
        if tail == [] {
          NoOptionsLast();
        }
      }
    }
  }

  lemma NoOptionsLast()
    ensures !OptionsLast([])
  {
  }

  lemma LongStable(lines: seq<string>, names: seq<string>)
    requires Short(lines) && Words(names) && names != [] && |Directive(names)| >= SCANNER_LIMIT
    requires HasIgnoreLine(lines) || HasOptions(lines)
    ensures Rewritten(Scanned(Rewritten(lines, names)), names) == Rewritten(lines, names) <==>
              NoCRs(Others(lines)) && Rewritten(lines, names) == Others(lines) + [Directive(names)] && OptionsLast(Others(lines))
  {
    hide Words, Others, Scanned, Short, NoCRs, Replaced, Inserted, OptionsLast, Directive, Ignored, IsIgnoreLine, HasOptions;
    var r, d, o := Rewritten(lines, names), Directive(names), Others(lines);
    var a, b := RewrittenSplit(lines, names);
    DirectiveReadBack(names);
    OthersAreOthers(lines);
    OthersShort(lines);
    ShortFront(a, b);
    ScannedStops(a, d, b);
    ScannedSame(a);
    HasIgnoreAppend(a, b);
    ScannedKind(a);
    if b == [] {
      assert a + b == a && a + [d] + b == a + [d];
      InsertedAtEnd(a, names);
      if Rewritten(Scanned(r), names) == r {
        NoIgnoreLine(Scanned(a));
        RewriteReadBack(Scanned(a), names);
        RewriteReadBack(lines, names);
      }
    } else {
      assert r[|r| - 1] == b[|b| - 1] && (o + [d])[|o|] == d;
      assert IsIgnoreLine(b[|b| - 1]) ==> HasIgnoreLine(b);
      if Rewritten(Scanned(r), names) == r {
        NoIgnoreLine(Scanned(a));
        RewriteReadBack(Scanned(a), names);
        RewriteReadBack(lines, names);
      }
    }
  }

  lemma OthersShort(lines: seq<string>)
    requires Short(lines)
    ensures Short(Others(lines))
  {
    hide Others;
    OthersComeFrom(lines);
    forall i | 0 <= i < |Others(lines)|
      ensures |Others(lines)[i]| < SCANNER_LIMIT
    {
      assert Others(lines)[i] in lines;
    }
  }

  lemma ShortFront(a: seq<string>, b: seq<string>)
    requires Short(a + b)
    ensures Short(a)
  {
    assert forall i :: 0 <= i < |a| ==> a[i] == (a + b)[i];
  }

  /** On any file: a second rewrite with the same list leaves the file byte for byte as it is exactly if no other
      line the scanner delivered still ends in a carriage return and, should the directive have a place and be
      too long to be read again, it stands at the end, right behind the only line with [options]. */
  lemma RewriteStableExactly(conf: string, names: seq<string>)
    requires Words(names)
    ensures var lines := Lines(conf);
            var once := Unlines(Rewritten(lines, names));
            Unlines(Rewritten(Lines(once), names)) == once <==>
              && NoCRs(Others(lines))
              && (names != [] && (HasIgnoreLine(lines) || HasOptions(lines)) && |Directive(names)| >= SCANNER_LIMIT ==>
                    Rewritten(lines, names) == Others(lines) + [Directive(names)] && OptionsLast(Others(lines)))
  {
    hide Words, Others, Scanned, Short, NoCRs, Rewritten, OptionsLast, Directive, HasIgnoreLine, HasOptions, Unlines, RawLines, NoBreaks;
    var lines := Lines(conf);
    var r := Rewritten(lines, names);
    ScannedNoBreaks(RawLines(conf));
    ScannedAreShort(RawLines(conf));
    assert NoBreaks(lines) by { LinesNoBreaks(conf); }
    RewrittenNoBreaks(lines, names);
    RawOfUnlines(r);
    ScannedNoBreaks(r);
    RewrittenNoBreaks(Scanned(r), names);
    SameFile(Rewritten(Scanned(r), names), r);
    if names != [] && (HasIgnoreLine(lines) || HasOptions(lines)) && |Directive(names)| >= SCANNER_LIMIT {
      LongStable(lines, names);
    } else {
      RewrittenShort(lines, names);
      ShortStable(lines, names);
    }
  }

  lemma LinesNoBreaks(conf: string)
    ensures NoBreaks(Lines(conf))
  {
    hide Lines;
    ScannedHasNoBreak(conf);
  }

  lemma ScannedNoBreaks(raw: seq<string>)
    ensures NoBreaks(raw) ==> NoBreaks(Scanned(raw))
  {
    hide Scanned;
    if NoBreaks(raw) {
      DropsKeepNoBreak(raw);
    }
  }

  lemma RewrittenShort(lines: seq<string>, names: seq<string>)
    requires Short(lines) && Words(names)
    requires names == [] || (!HasIgnoreLine(lines) && !HasOptions(lines)) || |Directive(names)| < SCANNER_LIMIT
    ensures Short(Rewritten(lines, names))
  {
    hide Words, Short, HasIgnoreLine, HasOptions, Directive, Replaced, Inserted, Ignored, Others;
    if names == [] || |Directive(names)| < SCANNER_LIMIT {
      RewrittenAreShort(lines, names);
    } else {
      InsertedIs(lines, names);
    }
  }

  /** A line with two carriage returns: the first rewrite takes one off, the second the other. */
  lemma SecondRewriteChanges() returns (conf: string)
    ensures var once := Unlines(Rewritten(Lines(conf), []));
            Unlines(Rewritten(Lines(once), [])) != once
  {
    conf := "#\r\r";
    var raw := ["#\r\r"];
    assert RawLines(conf) == raw;
    assert raw[1..] == [] && "#\r\r"[..2] == "#\r";
    assert Lines(conf) == ["#\r"];
    NotIgnore();
    assert Others(["#\r"]) == ["#\r"];
    assert EndsInCR("#\r") && !NoCRs(["#\r"]);
    RewriteStableExactly(conf, []);
  }

  lemma NotIgnore()
    ensures !IsIgnoreLine("#\r")
  {
    var t := TrimSpace("#\r");
    assert TrimLeft("#\r") == "#\r";
    assert "#\r"[..1] == "#";
    assert |t| <= 2;
  }

  // ----- a file that is lost -----

  /** If the first line is too long, whatever the operation, nothing of the file is left. */
  lemma LongFirstLineEmptiesFile(conf: string, op: Op)
    requires RawLines(conf) != [] && |RawLines(conf)[0]| >= SCANNER_LIMIT && op.packages != []
    ensures Edited(conf, op) == ""
  {
    hide RawLines;
    assert Lines(conf) == [];
    assert !HasIgnoreLine([]);
  }

  lemma ContainsEnd(front: string, pattern: string)
    ensures Contains(front + pattern, pattern)
  {
    assert (front + pattern)[|front|..|front| + |pattern|] == pattern;
    assert OccursAt(front + pattern, pattern, |front|);
  }

  /** Unpinning on such a file: it has an [options] section behind a long comment, and ends up empty. */
  lemma UnpinEmptiesFile() returns (conf: string)
    ensures Contains(conf, OPTIONS) && Edited(conf, Unpin(["a"])) == ""
  {
    hide Contains, RawLines, Edited;
    var comment := seq(SCANNER_LIMIT, _ => '#');
    conf := comment + ['\n'] + OPTIONS;
    FirstLine(comment, OPTIONS);
    LongFirstLineEmptiesFile(conf, Unpin(["a"]));
    ContainsEnd(comment + ['\n'], OPTIONS);
  }
}
