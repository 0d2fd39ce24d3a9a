/**
 nmcli's terse output escapes backslashes and colons; sys/network/networkmanager.go undoes it with three
 replacement passes and a NUL as stand-in. The reference here is one decoder that reads left to right.
 */
module NmcliEscape {

  const NUL := '\0'
  const BACKSLASH := '\\'

  predicate StartsWith(s: string, pattern: string) {
    |pattern| <= |s| && s[..|pattern|] == pattern
  }

  /** `strings.ReplaceAll` for a pattern that is not empty: leftmost occurrences that do not overlap. */
  function ReplaceAll(s: string, pattern: string, replacement: string): string
    requires pattern != []
    decreases |s|
  {
    if s == [] then []
    else if StartsWith(s, pattern) then replacement + ReplaceAll(s[|pattern|..], pattern, replacement)
    else [s[0]] + ReplaceAll(s[1..], pattern, replacement)
  }

  // The three passes.

  function HideBackslashes(s: string): string {
    ReplaceAll(s, [BACKSLASH, BACKSLASH], [NUL])
  }

  function UnescapeColons(s: string): string {
    ReplaceAll(s, [BACKSLASH, ':'], [':'])
  }

  function RestoreBackslashes(s: string): string {
    ReplaceAll(s, [NUL], [BACKSLASH])
  }

  /** unescapeNmcli. */
  function Unescape(s: string): string {
    RestoreBackslashes(UnescapeColons(HideBackslashes(s)))
  }

  /** The escaping nmcli applies. */
  function Escape(s: string): string {
    if s == [] then []
    else (if s[0] == BACKSLASH || s[0] == ':' then [BACKSLASH, s[0]] else [s[0]]) + Escape(s[1..])
  }

  /** Reading escaped text from left to right: an escaped backslash or colon stands for itself. */
  function Decode(s: string): string
    decreases |s|
  {
    if s == [] then []
    else if |s| > 1 && s[0] == BACKSLASH && (s[1] == BACKSLASH || s[1] == ':') then [s[1]] + Decode(s[2..])
    else [s[0]] + Decode(s[1..])
  }

  /** The passes on a text that starts with a character of no interest to a pass. */
  lemma PassOver(c: char, s: string)
    ensures c != BACKSLASH ==> HideBackslashes([c] + s) == [c] + HideBackslashes(s)
    ensures c != BACKSLASH ==> UnescapeColons([c] + s) == [c] + UnescapeColons(s)
    ensures c != NUL ==> RestoreBackslashes([c] + s) == [c] + RestoreBackslashes(s)
    ensures RestoreBackslashes([NUL] + s) == [BACKSLASH] + RestoreBackslashes(s)
  {
    assert ([c] + s)[1..] == s;
    assert ([NUL] + s)[1..] == s && ([NUL] + s)[..1] == [NUL];
    assert ([c] + s)[..1] == [c];
    if |s| > 0 {
      assert ([c] + s)[..2] == [c, s[0]];
    }
  }

  lemma PairPasses(s: string)
    ensures HideBackslashes([BACKSLASH, BACKSLASH] + s) == [NUL] + HideBackslashes(s)
    ensures UnescapeColons([BACKSLASH, ':'] + s) == [':'] + UnescapeColons(s)
  {
    assert ([BACKSLASH, BACKSLASH] + s)[2..] == s && ([BACKSLASH, BACKSLASH] + s)[..2] == [BACKSLASH, BACKSLASH];
    assert ([BACKSLASH, ':'] + s)[2..] == s && ([BACKSLASH, ':'] + s)[..2] == [BACKSLASH, ':'];
  }

  /** A backslash that starts no pair of a pass stays. */
  lemma LoneBackslash(s: string)
    ensures (s == [] || s[0] != BACKSLASH) ==> HideBackslashes([BACKSLASH] + s) == [BACKSLASH] + HideBackslashes(s)
    ensures (s == [] || s[0] != ':') ==> UnescapeColons([BACKSLASH] + s) == [BACKSLASH] + UnescapeColons(s)
  {
    var t := [BACKSLASH] + s;
    assert t[1..] == s;
    if |s| > 0 {
      assert t[..2] == [BACKSLASH, s[0]];
      assert t[..2][1] == s[0];
    }
  }

  /** On text without a NUL the three passes are the left-to-right decoder. */
  lemma {:induction false} PassesDecode(s: string)
    requires NUL !in s
    ensures Unescape(s) == Decode(s)
    decreases |s|
  {
    hide HideBackslashes, UnescapeColons, RestoreBackslashes, ReplaceAll;
    if s == [] {
      NothingToReplace();
    } else if |s| > 1 && s[0] == BACKSLASH && s[1] == BACKSLASH {
      var rest := s[2..];
      assert s == [BACKSLASH, BACKSLASH] + rest;
      PairPasses(rest);
      PassOver(NUL, HideBackslashes(rest));
      PassOver(NUL, UnescapeColons(HideBackslashes(rest)));
      PassesDecode(rest);
    } else if |s| > 1 && s[0] == BACKSLASH && s[1] == ':' {
      var rest := s[2..];
      assert s == [BACKSLASH] + ([':'] + rest);
      LoneBackslash([':'] + rest);
      PassOver(':', rest);
      assert [BACKSLASH] + ([':'] + HideBackslashes(rest)) == [BACKSLASH, ':'] + HideBackslashes(rest);
      PairPasses(HideBackslashes(rest));
      PassOver(':', UnescapeColons(HideBackslashes(rest)));
      PassesDecode(rest);
    } else if s[0] == BACKSLASH {
      var rest := s[1..];
      assert s == [BACKSLASH] + rest;
      LoneBackslash(rest);
      HiddenStart(rest);
      LoneBackslash(HideBackslashes(rest));
      PassOver(BACKSLASH, UnescapeColons(HideBackslashes(rest)));
      PassesDecode(rest);
    } else {
      var c, rest := s[0], s[1..];
      assert s == [c] + rest;
      PassOver(c, rest);
      PassOver(c, HideBackslashes(rest));
      PassOver(c, UnescapeColons(HideBackslashes(rest)));
      PassesDecode(rest);
    }
  }

  lemma NothingToReplace()
    ensures Unescape([]) == []
  {
  }

  lemma HiddenStart(s: string)
    requires s == [] || (s[0] != BACKSLASH && s[0] != ':')
    ensures HideBackslashes(s) == [] || HideBackslashes(s)[0] != ':'
  {
    if s != [] {
      assert s == [s[0]] + s[1..];
      PassOver(s[0], s[1..]);
    }
  }

  lemma {:induction false} RestoredHasNoNul(s: string)
    ensures NUL !in RestoreBackslashes(s)
  {
    if s != [] {
      assert s == [s[0]] + s[1..];
      PassOver(s[0], s[1..]);
      RestoredHasNoNul(s[1..]);
    }
  }

  lemma {:induction false} DecodeKeepsNul(s: string)
    ensures NUL in Decode(s) <==> NUL in s
    decreases |s|
  {
    if s != [] {
      if |s| > 1 && s[0] == BACKSLASH && (s[1] == BACKSLASH || s[1] == ':') {
        DecodeKeepsNul(s[2..]);
        assert s == [s[0], s[1]] + s[2..];
      } else {
        DecodeKeepsNul(s[1..]);
        assert s == [s[0]] + s[1..];
      }
    }
  }

  lemma {:induction false} DecodeEscape(s: string)
    ensures Decode(Escape(s)) == s
  {
    if s != [] {
      DecodeEscape(s[1..]);
      var e := Escape(s);
      if s[0] == BACKSLASH || s[0] == ':' {
        assert e[2..] == Escape(s[1..]);
      } else {
        assert e[1..] == Escape(s[1..]);
      }
    }
  }

  lemma {:induction false} EscapeKeepsNul(s: string)
    ensures NUL in Escape(s) <==> NUL in s
  {
    if s != [] {
      EscapeKeepsNul(s[1..]);
      assert s == [s[0]] + s[1..];
    }
  }

  /** The three passes agree with the decoder exactly on texts without a NUL. */
  lemma PassesDecodeExactly(s: string)
    ensures Unescape(s) == Decode(s) <==> NUL !in s
  {
    hide HideBackslashes, UnescapeColons, RestoreBackslashes, ReplaceAll, Decode;
    DecodeKeepsNul(s);
    if NUL in s {
      RestoredHasNoNul(UnescapeColons(HideBackslashes(s)));
    } else {
      PassesDecode(s);
    }
  }

  /** What nmcli escapes is recovered exactly when it holds no NUL. */
  lemma RoundTrip(s: string)
    ensures Unescape(Escape(s)) == s <==> NUL !in s
  {
    hide HideBackslashes, UnescapeColons, RestoreBackslashes, ReplaceAll, Decode, Escape;
    PassesDecodeExactly(Escape(s));
    DecodeEscape(s);
    EscapeKeepsNul(s);
  }
}
