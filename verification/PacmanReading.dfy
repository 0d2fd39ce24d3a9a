/**
 What the reader of pacman.conf (pkg/pacman.go) finds on a line, however its author laid it out: any white space
 in front, behind, around the `=` and between the names, any number of IgnorePkg lines.
 */
module PacmanReading {
  import opened Text
  import opened Pacman

  // ----- words in white space -----

  /** The text is the words in order, white space between any two of them, and perhaps more around them. */
  ghost predicate LaidOut(s: string, words: seq<string>)
    decreases |words|
  {
    if words == [] then Blank(s)
    else exists n: nat :: WordAt(s, words[0], n) && LaidOut(s[n + |words[0]|..], words[1..])
  }

  predicate WordAt(s: string, w: string, n: nat) {
    && n + |w| <= |s| && Blank(s[..n]) && s[n..n + |w|] == w
    && (n + |w| < |s| ==> IsSpace(s[n + |w|]))
  }

  lemma LaidOutFrom(s: string, w: string, n: nat, words: seq<string>)
    requires WordAt(s, w, n) && LaidOut(s[n + |w|..], words)
    ensures LaidOut(s, [w] + words)
  {
    hide Blank, IsSpace;
    assert ([w] + words)[0] == w && ([w] + words)[1..] == words;
  }

  lemma FirstLaidOut(s: string, words: seq<string>) returns (n: nat)
    requires words != [] && LaidOut(s, words)
    ensures WordAt(s, words[0], n) && LaidOut(s[n + |words[0]|..], words[1..])
    ensures words == [words[0]] + words[1..]
  {
    hide Blank, IsSpace;
    n :| WordAt(s, words[0], n) && LaidOut(s[n + |words[0]|..], words[1..]);
  }

  lemma {:induction false} SkipBlank(gap: string, s: string)
    requires Blank(gap)
    ensures Fields(gap + s) == Fields(s)
  {
    if gap == [] {
      assert gap + s == s;
    } else {
      assert IsSpace(gap[0]) && (gap + s)[1..] == gap[1..] + s;
      SkipBlank(gap[1..], s);
    }
  }

  lemma FirstWord(s: string, w: string, n: nat)
    requires IsWord(w) && WordAt(s, w, n)
    ensures Fields(s) == [w] + Fields(s[n + |w|..])
  {
    hide Fields, IsSpace;
    assert s == s[..n] + (w + s[n + |w|..]);
    SkipBlank(s[..n], w + s[n + |w|..]);
    WordThenSpace(w, s[n + |w|..]);
  }

  lemma {:induction false} LaidOutIsFound(s: string, words: seq<string>)
    requires Words(words) && LaidOut(s, words)
    ensures Fields(s) == words
    decreases |words|
  {
    hide Fields, Blank, IsSpace;
    if words == [] {
      FieldsOfSpace(s);
    } else {
      var n := FirstLaidOut(s, words);
      assert IsWord(words[0]);
      FirstWord(s, words[0], n);
      LaidOutIsFound(s[n + |words[0]|..], words[1..]);
    }
  }

  lemma WordAfterSpace(s: string, w: string, n: nat)
    requires s != [] && IsSpace(s[0]) && WordAt(s[1..], w, n)
    ensures WordAt(s, w, n + 1) && s[1..][n + |w|..] == s[n + 1 + |w|..]
  {
    hide IsSpace;
    assert s[..n + 1] == [s[0]] + s[1..][..n];
    assert s[n + 1..n + 1 + |w|] == s[1..][n..n + |w|];
  }

  lemma LaidOutAfterSpace(s: string, words: seq<string>)
    requires s != [] && IsSpace(s[0]) && LaidOut(s[1..], words)
    ensures LaidOut(s, words)
  {
    if words == [] {
      assert s == [s[0]] + s[1..];
    } else {
      hide LaidOut, Blank, IsSpace;
      var n := FirstLaidOut(s[1..], words);
      WordAfterSpace(s, words[0], n);
      LaidOutFrom(s, words[0], n + 1, words[1..]);
    }
  }

  lemma {:induction false} FoundIsLaidOut(s: string)
    ensures Words(Fields(s)) && LaidOut(s, Fields(s))
    decreases |s|
  {
    hide LaidOut;
    FieldsAreWords(s);
    if s == [] {
      NothingLaidOut();
    } else if IsSpace(s[0]) {
      FoundIsLaidOut(s[1..]);
      LaidOutAfterSpace(s, Fields(s[1..]));
    } else {
      var n := WordLength(s);
      assert n > 0;
      FoundIsLaidOut(s[n..]);
      LaidOutFrom(s, s[..n], 0, Fields(s[n..]));
    }
  }

  lemma NothingLaidOut()
    ensures LaidOut([], [])
  {
  }

  /** The fields of a text are exactly the words laid out in it. */
  lemma FieldsMeaning(s: string, words: seq<string>)
    requires Words(words)
    ensures Fields(s) == words <==> LaidOut(s, words)
  {
    hide Fields, LaidOut;
    FoundIsLaidOut(s);
    if LaidOut(s, words) {
      LaidOutIsFound(s, words);
    }
  }

  lemma WordBeforeBlank(s: string, gap: string, w: string, n: nat)
    requires Blank(gap) && WordAt(s, w, n)
    ensures WordAt(s + gap, w, n) && (s + gap)[n + |w|..] == s[n + |w|..] + gap
  {
    hide IsSpace;
    assert (s + gap)[..n] == s[..n] && (s + gap)[n..n + |w|] == s[n..n + |w|];
    assert n + |w| == |s| && gap != [] ==> (s + gap)[n + |w|] == gap[0];
  }

  lemma {:induction false} LaidOutBeforeBlank(s: string, gap: string, words: seq<string>)
    requires Blank(gap) && LaidOut(s, words)
    ensures LaidOut(s + gap, words)
    decreases |words|
  {
    if words != [] {
      hide LaidOut, Blank, IsSpace;
      var n := FirstLaidOut(s, words);
      LaidOutBeforeBlank(s[n + |words[0]|..], gap, words[1..]);
      WordBeforeBlank(s, gap, words[0], n);
      LaidOutFrom(s + gap, words[0], n, words[1..]);
    }
  }

  /** White space around a text does not change its fields. */
  lemma FieldsBetweenBlanks(before: string, s: string, after: string)
    requires Blank(before) && Blank(after)
    ensures Fields(before + s + after) == Fields(s)
  {
    hide Fields, LaidOut;
    FoundIsLaidOut(s);
    LaidOutBeforeBlank(s, after, Fields(s));
    LaidOutIsFound(s + after, Fields(s));
    SkipBlank(before, s + after);
    assert before + s + after == before + (s + after);
  }

  // ----- trimming -----

  lemma {:induction false} TrimLeftMeaning(s: string) returns (n: nat)
    ensures n <= |s| && Blank(s[..n]) && TrimLeft(s) == s[n..] && (n < |s| ==> !IsSpace(s[n]))
  {
    if s == [] || !IsSpace(s[0]) {
      n := 0;
    } else {
      var m := TrimLeftMeaning(s[1..]);
      n := m + 1;
      assert s[..n] == [s[0]] + s[1..][..m];
    }
  }

  lemma {:induction false} TrimRightMeaning(s: string) returns (n: nat)
    ensures n <= |s| && Blank(s[n..]) && TrimRight(s) == s[..n] && (n > 0 ==> !IsSpace(s[n - 1]))
  {
    if s == [] || !IsSpace(s[|s| - 1]) {
      n := |s|;
    } else {
      n := TrimRightMeaning(s[..|s| - 1]);
      assert s[n..] == s[..|s| - 1][n..] + [s[|s| - 1]];
      assert s[..|s| - 1][..n] == s[..n];
    }
  }

  /** Trimming cuts a text into white space, the part kept and white space; the part kept starts and ends with
      something else. */
  lemma TrimSpaceMeaning(s: string) returns (before: string, after: string)
    ensures s == before + TrimSpace(s) + after && Blank(before) && Blank(after)
    ensures TrimSpace(s) != [] ==> !IsSpace(TrimSpace(s)[0]) && !IsSpace(TrimSpace(s)[|TrimSpace(s)| - 1])
  {
    hide TrimLeft, TrimRight;
    var n := TrimLeftMeaning(s);
    var m := TrimRightMeaning(s[n..]);
    before, after := s[..n], s[n..][m..];
  }

  // ----- one line -----

  /** The line is an IgnorePkg directive: white space, the keyword, anything up to the first `=`, and a value. */
  predicate Assigns(line: string, before: string, middle: string, value: string) {
    line == before + DIRECTIVE + middle + ['='] + value && Blank(before) && '=' !in middle
  }

  /** The line starts with the keyword, white space aside. */
  ghost predicate StartsDirective(line: string) {
    exists n: nat :: n + |DIRECTIVE| <= |line| && Blank(line[..n]) && OccursAt(line, DIRECTIVE, n)
  }

  lemma DirectiveIsSolid()
    ensures DIRECTIVE != [] && NoSpace(DIRECTIVE) && '=' !in DIRECTIVE && !IsSpace('=')
  {
  }

  /** Two ways to cut white space off the front, each stopping at something else, cut at the same place. */
  lemma SameCut(line: string, n: nat, m: nat)
    requires n < |line| && m < |line| && Blank(line[..n]) && Blank(line[..m]) && !IsSpace(line[n]) && !IsSpace(line[m])
    ensures n == m
  {
    assert forall i :: 0 <= i < m ==> line[i] == line[..m][i];
    assert forall i :: 0 <= i < n ==> line[i] == line[..n][i];
  }

  lemma TrimSpaceKeeps(s: string, k: nat) returns (before: string, after: string)
    requires k < |s| && !IsSpace(s[k])
    ensures s == before + TrimSpace(s) + after && Blank(before) && Blank(after)
    ensures |before| <= k < |before| + |TrimSpace(s)| && !IsSpace(TrimSpace(s)[0])
  {
    hide TrimSpace;
    before, after := TrimSpaceMeaning(s);
    assert forall i :: 0 <= i < |before| ==> s[i] == before[i];
    assert forall i :: |before| + |TrimSpace(s)| <= i < |s| ==> s[i] == after[i - |before| - |TrimSpace(s)|];
  }

  /** A line is taken for a directive exactly if it starts with the keyword, white space aside. */
  lemma IgnoreLineMeaning(line: string)
    ensures IsIgnoreLine(line) <==> StartsDirective(line)
  {
    hide TrimSpace, IsSpace;
    DirectiveIsSolid();
    if IsIgnoreLine(line) {
      var before, after := TrimSpaceMeaning(line);
      assert line[..|before|] == before;
      assert OccursAt(line, DIRECTIVE, |before|);
    }
    if StartsDirective(line) {
      var n: nat :| n + |DIRECTIVE| <= |line| && Blank(line[..n]) && OccursAt(line, DIRECTIVE, n);
      assert line[n] == DIRECTIVE[0];
      StartsSolid(line, n);
    }
  }

  lemma StartsSolid(line: string, n: nat)
    requires n + |DIRECTIVE| <= |line| && Blank(line[..n]) && OccursAt(line, DIRECTIVE, n)
    ensures IsIgnoreLine(line)
  {
    hide TrimSpace, IsSpace;
    DirectiveIsSolid();
    var last := n + |DIRECTIVE| - 1;
    assert line[n] == DIRECTIVE[0] && line[last] == DIRECTIVE[|DIRECTIVE| - 1];
    var before, after := TrimSpaceKeeps(line, last);
    assert line[..|before|] == before && line[|before|] == TrimSpace(line)[0];
    SameCut(line, n, |before|);
    assert TrimSpace(line)[..|DIRECTIVE|] == line[n..n + |DIRECTIVE|];
  }

  /** The names on a line are the fields behind its first `=`, wherever that stands; without one there are none. */
  lemma NamesOnMeaning(front: string, value: string)
    requires '=' !in front
    ensures NamesOn(front) == [] && NamesOn(front + ['='] + value) == Fields(value)
  {
    hide TrimSpace, IsSpace, Fields, IndexByte;
    NoAssignment(front);
    DirectiveIsSolid();
    var line := front + ['='] + value;
    var before, after := TrimSpaceKeeps(line, |front|);
    var t := TrimSpace(line);
    var rest := CutAround(front, value, before, t, after);
    IndexByteAt(front[|before|..], '=', rest);
    assert t[|front| - |before| + 1..] == rest;
    FieldsBetweenBlanks([], rest, after);
    assert [] + rest + after == value;
    FieldsOfTrimmed(rest);
  }

  /** A middle part that holds the `=` holds what is in front of it, and the rest of it starts the value. */
  lemma CutAround(front: string, value: string, before: string, t: string, after: string) returns (rest: string)
    requires front + ['='] + value == before + t + after && |before| <= |front| < |before| + |t|
    ensures t == front[|before|..] + ['='] + rest && value == rest + after
  {
    var line := front + ['='] + value;
    var at := |front| - |before|;
    rest := t[at + 1..];
    assert t == line[|before|..|before| + |t|];
    assert t[..at] == front[|before|..] && t[at] == '=';
    assert t == t[..at] + [t[at]] + t[at + 1..];
    assert value == line[|front| + 1..];
  }

  lemma NoAssignment(line: string)
    requires '=' !in line
    ensures NamesOn(line) == []
  {
    hide TrimSpace;
    var before, after := TrimSpaceMeaning(line);
    assert forall c :: c in TrimSpace(line) ==> c in line;
  }

  lemma FieldsOfTrimmed(s: string)
    ensures Fields(TrimSpace(s)) == Fields(s)
  {
    hide TrimSpace, Fields;
    var before, after := TrimSpaceMeaning(s);
    FieldsBetweenBlanks(before, TrimSpace(s), after);
  }

  // ----- what a line and a file pin -----

  /** However a directive is laid out, exactly the words of its value are read. */
  lemma AssignedNamesAreRead(line: string, before: string, middle: string, value: string, words: seq<string>)
    requires Assigns(line, before, middle, value) && Words(words)
    ensures NamesHere(line) == words <==> LaidOut(value, words)
  {
    hide NamesOn, LaidOut, Fields, IsIgnoreLine;
    var front := before + DIRECTIVE + middle;
    assert line == front + ['='] + value;
    DirectiveIsSolid();
    assert '=' !in before by {
      assert forall c :: c in before ==> IsSpace(c);
    }
    NamesOnMeaning(front, value);
    assert line[..|before|] == before && OccursAt(line, DIRECTIVE, |before|);
    IgnoreLineMeaning(line);
    FieldsMeaning(value, words);
  }

  /** A line from which any name is read is a directive that assigns it. */
  lemma ReadNamesAreAssigned(line: string) returns (before: string, middle: string, value: string)
    requires NamesHere(line) != []
    ensures Assigns(line, before, middle, value) && LaidOut(value, NamesHere(line)) && Words(NamesHere(line))
  {
    hide NamesOn, LaidOut, Fields, Blank, IsSpace;
    IgnoreLineMeaning(line);
    var n: nat :| n + |DIRECTIVE| <= |line| && Blank(line[..n]) && OccursAt(line, DIRECTIVE, n);
    if '=' !in line {
      NamesOnMeaning(line, []);
    }
    var k := IndexByte(line, '=');
    NotWithin(line, n, k);
    before, middle, value := line[..n], line[n + |DIRECTIVE|..k], line[k + 1..];
    CutAt(line, n, k);
    NamesOnMeaning(line[..k], value);
    FoundIsLaidOut(value);
  }

  /** The first `=` comes behind the keyword. */
  lemma NotWithin(line: string, n: nat, k: nat)
    requires n + |DIRECTIVE| <= |line| && Blank(line[..n]) && OccursAt(line, DIRECTIVE, n) && k < |line| && line[k] == '='
    ensures n + |DIRECTIVE| <= k
  {
    DirectiveIsSolid();
    assert forall i :: 0 <= i < n ==> line[i] == line[..n][i];
    assert forall i :: n <= i < n + |DIRECTIVE| ==> line[i] == DIRECTIVE[i - n];
  }

  lemma CutAt(line: string, n: nat, k: nat)
    requires n + |DIRECTIVE| <= k < |line| && OccursAt(line, DIRECTIVE, n) && line[k] == '=' && '=' !in line[..k]
    ensures line == line[..k] + ['='] + line[k + 1..]
    ensures line == line[..n] + DIRECTIVE + line[n + |DIRECTIVE|..k] + ['='] + line[k + 1..]
    ensures '=' !in line[n + |DIRECTIVE|..k]
  {
    assert line[..k] == line[..n] + DIRECTIVE + line[n + |DIRECTIVE|..k];
  }

  lemma {:induction false} IgnoredIsAnyLine(lines: seq<string>, name: string)
    ensures name in Ignored(lines) <==> exists i :: 0 <= i < |lines| && name in NamesHere(lines[i])
  {
    hide NamesHere;
    if lines != [] {
      IgnoredIsAnyLine(lines[1..], name);
      if exists i :: 0 <= i < |lines| && name in NamesHere(lines[i]) {
        var i :| 0 <= i < |lines| && name in NamesHere(lines[i]);
        assert i > 0 ==> lines[i] == lines[1..][i - 1];
      }
    }
  }

  /** The line assigns `name` among the words of its value. */
  ghost predicate Names(line: string, name: string) {
    exists before, middle, value, words ::
      Assigns(line, before, middle, value) && Words(words) && LaidOut(value, words) && name in words
  }

  /** A package is pinned by a file exactly if one of its lines is an IgnorePkg directive with that word in its
      value, however the line is laid out and however many such lines there are. */
  lemma PinnedMeaning(lines: seq<string>, name: string)
    ensures name in Ignored(lines) <==> exists i :: 0 <= i < |lines| && Names(lines[i], name)
  {
    hide NamesHere, Ignored, Names, LaidOut;
    IgnoredIsAnyLine(lines, name);
    forall i | 0 <= i < |lines|
      ensures name in NamesHere(lines[i]) <==> Names(lines[i], name)
    {
      NamedOnLine(lines[i], name);
    }
  }

  lemma NamedOnLine(line: string, name: string)
    ensures name in NamesHere(line) <==> Names(line, name)
  {
    hide NamesHere, LaidOut, Assigns, Words;
    if name in NamesHere(line) {
      var before, middle, value := ReadNamesAreAssigned(line);
    }
    if Names(line, name) {
      var before, middle, value, words :|
        Assigns(line, before, middle, value) && Words(words) && LaidOut(value, words) && name in words;
      AssignedNamesAreRead(line, before, middle, value, words);
    }
  }
}
