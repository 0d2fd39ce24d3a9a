/**
 The string helpers of the Go standard library that the modelled code calls: `strconv.Itoa`,
 `strconv.Atoi`, `strings.IndexByte`, `strings.Index`, `strings.TrimSpace`, `strings.Fields` and
 `strings.Join` with a space. A string is a sequence of characters;
 where the source works on bytes, one character stands for one byte.
 */
module Text {

  datatype Option<+T> = None | Some(value: T)

  // ----- decimal numbers -----

  predicate IsDigit(c: char) {
    '0' <= c <= '9'
  }

  predicate AllDigits(s: string) {
    forall i :: 0 <= i < |s| ==> IsDigit(s[i])
  }

  function DigitChar(d: nat): char
    requires d < 10
  {
    '0' + d as char
  }

  /** `strconv.Itoa` and `%d` on a number that is not negative. */
  function Decimal(n: nat): (s: string)
    ensures |s| > 0 && AllDigits(s)
  {
    if n < 10 then [DigitChar(n)] else Decimal(n / 10) + [DigitChar(n % 10)]
  }

  /** The value of a string of digits. */
  function DigitsValue(s: string): nat
    requires AllDigits(s)
  {
    if s == [] then 0
    else 10 * DigitsValue(s[..|s| - 1]) + (s[|s| - 1] as int - '0' as int)
  }

  lemma {:induction false} DecimalValue(n: nat)
    ensures DigitsValue(Decimal(n)) == n
  {
    var s := Decimal(n);
    if n < 10 {
      assert s == [DigitChar(n)];
      assert s[..0] == [];
    } else {
      assert s[..|s| - 1] == Decimal(n / 10);
      DecimalValue(n / 10);
    }
  }

  const MAX_INT: int := 0x7fff_ffff_ffff_ffff

  /** `strconv.Atoi` on a 64-bit platform: an optional sign, then at least one digit, in range. */
  function Atoi(s: string): Option<int> {
    var negative := |s| > 0 && s[0] == '-';
    var digits := if |s| > 0 && (s[0] == '-' || s[0] == '+') then s[1..] else s;
    if |digits| == 0 || !AllDigits(digits) then None
    else
      var magnitude: int := DigitsValue(digits);
      var v := if negative then -magnitude else magnitude;
      if -MAX_INT - 1 <= v <= MAX_INT then Some(v) else None
  }

  /** Atoi reads back what Itoa wrote, and rejects exactly what a 64-bit int cannot hold. */
  lemma AtoiDecimal(n: nat)
    ensures Atoi(Decimal(n)) == if n <= MAX_INT then Some(n) else None
  {
    DecimalValue(n);
    assert IsDigit(Decimal(n)[0]);
  }

  /** A sign in front is read as a sign; the negative numbers reach one further. */
  lemma AtoiSigned(n: nat)
    ensures Atoi(['-'] + Decimal(n)) == if n <= MAX_INT + 1 then Some(0 - n) else None
    ensures Atoi(['+'] + Decimal(n)) == Atoi(Decimal(n))
  {
    hide Decimal, DigitsValue;
    var digits := Decimal(n);
    DecimalValue(n);
    assert IsDigit(digits[0]);
    assert (['-'] + digits)[1..] == digits && (['+'] + digits)[1..] == digits;
  }

  // ----- searching -----

  /** `strings.IndexByte`: the first position of `c`, or -1. */
  function IndexByte(s: string, c: char): (r: int)
    ensures -1 <= r < |s|
    ensures r >= 0 ==> s[r] == c && c !in s[..r]
    ensures r == -1 <==> c !in s
  {
    if s == [] then -1
    else if s[0] == c then 0
    else
      var k := IndexByte(s[1..], c);
      assert k >= 0 ==> s[..k + 1] == [s[0]] + s[1..][..k];
      if k < 0 then -1 else k + 1
  }

  /** A string that starts with a `c`-free prefix and then `c` is cut exactly there. */
  lemma {:induction false} IndexByteAt(prefix: string, c: char, rest: string)
    requires c !in prefix
    ensures IndexByte(prefix + [c] + rest, c) == |prefix|
  {
    var s := prefix + [c] + rest;
    assert s[|prefix|] == c;
    assert forall i :: 0 <= i < |prefix| ==> s[i] == prefix[i];
  }

  /** `pattern` occurs in `s` at position `i`. */
  predicate OccursAt(s: string, pattern: string, i: nat) {
    i + |pattern| <= |s| && s[i..i + |pattern|] == pattern
  }

  predicate Contains(s: string, pattern: string) {
    exists i :: 0 <= i <= |s| && OccursAt(s, pattern, i)
  }

  /** `strings.Index`, looking from position `from` on: the first occurrence, or -1. */
  function IndexFrom(s: string, pattern: string, from: nat): (r: int)
    requires from <= |s|
    ensures r == -1 || (from <= r && OccursAt(s, pattern, r))
    ensures forall i :: from <= i <= |s| && (r == -1 || i < r) ==> !OccursAt(s, pattern, i)
    decreases |s| - from
  {
    if OccursAt(s, pattern, from) then from
    else if from == |s| then -1
    else IndexFrom(s, pattern, from + 1)
  }

  /** `strings.Index`. */
  function Index(s: string, pattern: string): (r: int)
    ensures -1 <= r && (r >= 0 ==> OccursAt(s, pattern, r))
    ensures r == -1 <==> !Contains(s, pattern)
    ensures forall i :: 0 <= i < r ==> !OccursAt(s, pattern, i)
  {
    IndexFrom(s, pattern, 0)
  }

  // ----- white space -----

  /** `unicode.IsSpace` on one byte: the spaces of more than one byte are no spaces here. */
  predicate IsSpace(c: char) {
    c in {' ', '\t', '\n', '\r', '\U{0b}', '\U{0c}'}
  }

  /** White space is the space and the five control characters from tab to carriage return. */
  lemma SpaceCodes(c: char)
    ensures IsSpace(c) <==> c as int == 32 || 9 <= c as int <= 13
  {
  }

  function TrimLeft(s: string): string {
    if s == [] || !IsSpace(s[0]) then s else TrimLeft(s[1..])
  }

  function TrimRight(s: string): string {
    if s == [] || !IsSpace(s[|s| - 1]) then s else TrimRight(s[..|s| - 1])
  }

  /** `strings.TrimSpace`. */
  function TrimSpace(s: string): string {
    TrimRight(TrimLeft(s))
  }

  predicate NoSpace(s: string) {
    forall i :: 0 <= i < |s| ==> !IsSpace(s[i])
  }

  predicate Blank(s: string) {
    forall i :: 0 <= i < |s| ==> IsSpace(s[i])
  }

  /** The length of the word a text starts with. */
  function WordLength(s: string): (n: nat)
    ensures n <= |s| && NoSpace(s[..n]) && (n < |s| ==> IsSpace(s[n]))
  {
    if s == [] || IsSpace(s[0]) then 0
    else
      var n := 1 + WordLength(s[1..]);
      assert s[..n] == [s[0]] + s[1..][..n - 1];
      n
  }

  /** `strings.Fields`: the words between runs of white space. */
  function Fields(s: string): seq<string>
    decreases |s|
  {
    if s == [] then []
    else if IsSpace(s[0]) then Fields(s[1..])
    else [s[..WordLength(s)]] + Fields(s[WordLength(s)..])
  }

  /** `strings.Join` with a single space. */
  function Join(words: seq<string>): string {
    if words == [] then []
    else if |words| == 1 then words[0]
    else words[0] + " " + Join(words[1..])
  }

  predicate IsWord(w: string) {
    w != [] && NoSpace(w)
  }

  lemma WordThenSpace(w: string, rest: string)
    requires IsWord(w) && (rest == [] || IsSpace(rest[0]))
    ensures Fields(w + rest) == [w] + Fields(rest)
  {
    var s := w + rest;
    assert !IsSpace(s[0]) by { assert s[0] == w[0]; }
    assert forall i :: 0 <= i < |w| ==> s[i] == w[i];
    assert rest != [] ==> s[|w|] == rest[0];
    assert s[..|w|] == w && s[|w|..] == rest;
  }

  /** Words joined by spaces, with white space behind them, are found again. */
  lemma {:induction false} FieldsOfJoin(words: seq<string>, tail: string)
    requires forall i :: 0 <= i < |words| ==> IsWord(words[i])
    requires Blank(tail)
    ensures Fields(Join(words) + tail) == words
  {
    hide WordLength;
    if words == [] {
      assert Join(words) + tail == tail;
      FieldsOfSpace(tail);
    } else if |words| == 1 {
      WordThenSpace(words[0], tail);
      FieldsOfSpace(tail);
    } else {
      var rest := Join(words[1..]) + tail;
      assert Join(words) + tail == words[0] + (" " + rest);
      WordThenSpace(words[0], " " + rest);
      assert (" " + rest)[1..] == rest;
      FieldsOfJoin(words[1..], tail);
      assert words == [words[0]] + words[1..];
    }
  }

  lemma {:induction false} FieldsOfSpace(s: string)
    requires Blank(s)
    ensures Fields(s) == []
  {
    if s != [] {
      FieldsOfSpace(s[1..]);
    }
  }

  /** Every field is a word. */
  lemma {:induction false} FieldsAreWords(s: string)
    ensures forall i :: 0 <= i < |Fields(s)| ==> IsWord(Fields(s)[i])
    decreases |s|
  {
    if s != [] {
      if IsSpace(s[0]) {
        FieldsAreWords(s[1..]);
      } else {
        assert WordLength(s) > 0;
        FieldsAreWords(s[WordLength(s)..]);
      }
    }
  }
}
