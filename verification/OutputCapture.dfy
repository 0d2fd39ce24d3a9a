/**
 Bounded output capture: the line recorder of the streaming command runner (sys/exec/exec.go) and the
 CappedBuffer writer (sys/exec/capped_buffer.go).
 */
module OutputCapture {

  const MAX_OUTPUT_BYTES := 1048576
  const MARKER := "\n[output truncated]"

  // ----- what a stream is captured as -----

  /** The stream's text: each line with its newline. */
  function Text(lines: seq<string>): string {
    if lines == [] then [] else Text(lines[..|lines| - 1]) + lines[|lines| - 1] + "\n"
  }

  lemma {:induction false} TextAppend(a: seq<string>, b: seq<string>)
    ensures Text(a + b) == Text(a) + Text(b)
  {
    if b == [] {
      assert a + b == a;
    } else {
      var init, last := b[..|b| - 1], b[|b| - 1];
      TextAppend(a, init);
      assert (a + b)[..|a + b| - 1] == a + init;
      Regroup(Text(a), Text(init), last + "\n");
      Regroup(Text(init), last, "\n");
      Regroup(Text(a) + Text(init), last, "\n");
    }
  }

  lemma Regroup(x: string, y: string, z: string)
    ensures x + y + z == x + (y + z)
  {
  }

  /** The lines stand in order, each with its newline behind it. */
  lemma TextInOrder(a: seq<string>, line: string, b: seq<string>)
    ensures Text(a + [line] + b) == Text(a) + (line + "\n") + Text(b)
  {
    TextAppend(a + [line], b);
    assert (a + [line])[..|a|] == a;
    hide Text;
    assert Text(a) + line + "\n" == Text(a) + (line + "\n");
  }

  /** How many leading lines fit under the cap. */
  function Fit(lines: seq<string>): (k: nat)
    ensures k <= |lines|
  {
    if lines == [] then 0
    else if |Text(lines)| <= MAX_OUTPUT_BYTES then |lines|
    else Fit(lines[..|lines| - 1])
  }

  /** The captured text: the lines that fit, and the marker if not all did. */
  function Captured(lines: seq<string>): string {
    Text(lines[..Fit(lines)]) + if |Text(lines)| > MAX_OUTPUT_BYTES then MARKER else []
  }

  /** The captured lines are the longest prefix of whole lines within the cap, and the marker says exactly
      whether anything is missing. */
  lemma {:induction false} FitIsLongest(lines: seq<string>)
    ensures |Text(lines[..Fit(lines)])| <= MAX_OUTPUT_BYTES
    ensures forall k :: Fit(lines) < k <= |lines| ==> |Text(lines[..k])| > MAX_OUTPUT_BYTES
    ensures Fit(lines) == |lines| <==> |Text(lines)| <= MAX_OUTPUT_BYTES
  {
    assert lines[..|lines|] == lines;
    if |Text(lines)| > MAX_OUTPUT_BYTES {
      var init := lines[..|lines| - 1];
      FitIsLongest(init);
      forall k | 0 <= k <= |init|
        ensures init[..k] == lines[..k]
      {
      }
    }
  }

  /** A stream is captured whole exactly if it has at most one mebibyte; otherwise what is captured ends in the
      marker, behind at most that much. */
  lemma WholeUpToOneMebibyte(lines: seq<string>)
    ensures Captured(lines) == Text(lines) <==> |Text(lines)| <= 1024 * 1024
    ensures |Text(lines)| > 1024 * 1024 ==>
              Captured(lines) == Text(lines[..Fit(lines)]) + "\n[output truncated]" && |Captured(lines)| <= 1024 * 1024 + 19
  {
    FitIsLongest(lines);
    if |Text(lines)| <= 1024 * 1024 {
      assert lines[..|lines|] == lines;
    } else {
      var c := Captured(lines);
      assert c[|c| - 1] == ']';
      assert Text(lines)[|Text(lines)| - 1] == '\n';
    }
  }

  // ----- the recorder -----

  datatype Stream = Stdout | Stderr
  datatype Callback = Callback(stream: Stream, line: string, number: nat)

  /** The callbacks of one stream, in order. */
  function Of(calls: seq<Callback>, stream: Stream): seq<Callback> {
    if calls == [] then []
    else
      var init := Of(calls[..|calls| - 1], stream);
      if calls[|calls| - 1].stream == stream then init + [calls[|calls| - 1]] else init
  }

  /** Every line of a stream reported once, numbered from zero. */
  function Numbered(lines: seq<string>, stream: Stream): seq<Callback> {
    seq(|lines|, (i: int) requires 0 <= i < |lines| => Callback(stream, lines[i] + "\n", i))
  }

  /** What is kept of one stream while it runs. */
  datatype Track = Track(buf: string, bytes: nat, number: nat)

  predicate Follows(t: Track, lines: seq<string>) {
    t.buf == Text(lines[..Fit(lines)]) && t.bytes == |Text(lines)| && t.number == |lines|
  }

  /** recordLine, on the stream's own fields. */
  function Recorded(t: Track, line: string): Track {
    var bytes := t.bytes + |line| + 1;
    Track(if bytes <= MAX_OUTPUT_BYTES then t.buf + line + "\n" else t.buf, bytes, t.number + 1)
  }

  lemma RecordedFollows(t: Track, lines: seq<string>, line: string)
    requires Follows(t, lines)
    ensures Follows(Recorded(t, line), lines + [line])
  {
    var more := lines + [line];
    assert more[..|lines|] == lines;
    if |Text(more)| <= MAX_OUTPUT_BYTES {
      FitIsLongest(lines);
      assert lines[..|lines|] == lines && more[..|more|] == more;
    } else {
      assert Fit(more) == Fit(lines);
      assert more[..Fit(lines)] == lines[..Fit(lines)];
    }
  }

  class Recorder {
    var out: Track
    var err: Track
    var calls: seq<Callback>

    constructor ()
      ensures out == Track([], 0, 0) && err == Track([], 0, 0) && calls == []
    {
      out, err, calls := Track([], 0, 0), Track([], 0, 0), [];
    }

    /** What has been recorded is what the two streams have delivered so far, in whatever interleaving. */
    ghost predicate Matches(stdout: seq<string>, stderr: seq<string>)
      reads this
    {
      && Follows(out, stdout) && Follows(err, stderr)
      && Of(calls, Stdout) == Numbered(stdout, Stdout) && Of(calls, Stderr) == Numbered(stderr, Stderr)
    }

    method RecordLine(stream: Stream, line: string, ghost stdout: seq<string>, ghost stderr: seq<string>)
      requires Matches(stdout, stderr)
      modifies this
      ensures stream.Stdout? ==> Matches(stdout + [line], stderr)
      ensures stream.Stderr? ==> Matches(stdout, stderr + [line])
    {
      hide Follows;
      ghost var before := calls;
      if stream.Stdout? {
        assert out.number == |stdout| by { FollowsNumber(out, stdout); }
        RecordedFollows(out, stdout, line);
        calls := calls + [Callback(Stdout, line + "\n", out.number)];
        out := Recorded(out, line);
        NumberedMore(before, stdout, Stdout, line);
        OtherStream(before, Stdout, Stderr, calls[|before|]);
      } else {
        assert err.number == |stderr| by { FollowsNumber(err, stderr); }
        RecordedFollows(err, stderr, line);
        calls := calls + [Callback(Stderr, line + "\n", err.number)];
        err := Recorded(err, line);
        NumberedMore(before, stderr, Stderr, line);
        OtherStream(before, Stderr, Stdout, calls[|before|]);
      }
    }

    /** drainRemaining: the other stream has closed. */
    method DrainRemaining(stream: Stream, lines: seq<string>, from: nat, ghost other: seq<string>)
      requires from <= |lines|
      requires if stream.Stdout? then Matches(lines[..from], other) else Matches(other, lines[..from])
      modifies this
      ensures if stream.Stdout? then Matches(lines, other) else Matches(other, lines)
    {
      hide *;
      for i := from to |lines|
        invariant if stream.Stdout? then Matches(lines[..i], other) else Matches(other, lines[..i])
      {
        assert lines[..i + 1] == lines[..i] + [lines[i]];
        if stream.Stdout? {
          RecordLine(stream, lines[i], lines[..i], other);
        } else {
          RecordLine(stream, lines[i], other, lines[..i]);
        }
      }
      assert lines[..|lines|] == lines;
    }

    /** The select loop of runStreamingWithStdin on what the child writes, and the result built from it. Which
        stream the loop serves next is arbitrary; a cancelled run stops at any point. */
    method Capture(stdout: seq<string>, stderr: seq<string>)
      returns (outText: string, errText: string, cancelled: bool, ghost seenOut: nat, ghost seenErr: nat)
      requires Matches([], [])
      modifies this
      ensures seenOut <= |stdout| && seenErr <= |stderr|
      ensures !cancelled ==> seenOut == |stdout| && seenErr == |stderr|
      ensures outText == Captured(stdout[..seenOut]) && errText == Captured(stderr[..seenErr])
      ensures Of(calls, Stdout) == Numbered(stdout[..seenOut], Stdout)
      ensures Of(calls, Stderr) == Numbered(stderr[..seenErr], Stderr)
    {
      hide Follows, Fit, Of;
      cancelled, seenOut, seenErr := Pump(stdout, stderr);
      FollowsText(out, stdout[..seenOut]);
      FollowsText(err, stderr[..seenErr]);
      outText := out.buf;
      if out.bytes > MAX_OUTPUT_BYTES {
        outText := outText + MARKER;
      }
      errText := err.buf;
      if err.bytes > MAX_OUTPUT_BYTES {
        errText := errText + MARKER;
      }
    }

    method Pump(stdout: seq<string>, stderr: seq<string>)
      returns (cancelled: bool, ghost seenOut: nat, ghost seenErr: nat)
      requires Matches([], [])
      modifies this
      ensures seenOut <= |stdout| && seenErr <= |stderr|
      ensures !cancelled ==> seenOut == |stdout| && seenErr == |stderr|
      ensures Matches(stdout[..seenOut], stderr[..seenErr])
    {
      hide *;
      cancelled := false;
      var i, j := 0, 0;
      assert stdout[..0] == [] && stderr[..0] == [];
      while true
        invariant i <= |stdout| && j <= |stderr|
        invariant Matches(stdout[..i], stderr[..j])
        decreases |stdout| - i + |stderr| - j
      {
        var stop := *;
        var serveOut := *;
        if stop {
          return true, i, j;
        } else if serveOut {
          if i == |stdout| {
            assert stdout[..i] == stdout && stderr[..|stderr|] == stderr;
            DrainRemaining(Stderr, stderr, j, stdout);
            return false, |stdout|, |stderr|;
          }
          RecordLine(Stdout, stdout[i], stdout[..i], stderr[..j]);
          assert stdout[..i + 1] == stdout[..i] + [stdout[i]];
          i := i + 1;
        } else {
          if j == |stderr| {
            assert stderr[..j] == stderr && stdout[..|stdout|] == stdout;
            DrainRemaining(Stdout, stdout, i, stderr);
            return false, |stdout|, |stderr|;
          }
          RecordLine(Stderr, stderr[j], stdout[..i], stderr[..j]);
          assert stderr[..j + 1] == stderr[..j] + [stderr[j]];
          j := j + 1;
        }
      }
    }
  }

  lemma FollowsNumber(t: Track, lines: seq<string>)
    requires Follows(t, lines)
    ensures t.number == |lines|
  {
  }

  lemma FollowsText(t: Track, lines: seq<string>)
    requires Follows(t, lines)
    ensures t.buf + (if t.bytes > MAX_OUTPUT_BYTES then MARKER else []) == Captured(lines)
  {
  }

  lemma NumberedMore(calls: seq<Callback>, lines: seq<string>, stream: Stream, line: string)
    requires Of(calls, stream) == Numbered(lines, stream)
    ensures Of(calls + [Callback(stream, line + "\n", |lines|)], stream) == Numbered(lines + [line], stream)
  {
    var c := Callback(stream, line + "\n", |lines|);
    assert (calls + [c])[..|calls|] == calls;
    assert Numbered(lines + [line], stream) == Numbered(lines, stream) + [c];
  }

  lemma OtherStream(calls: seq<Callback>, stream: Stream, other: Stream, c: Callback)
    requires stream != other && c.stream == stream
    ensures Of(calls + [c], other) == Of(calls, other)
  {
    assert (calls + [c])[..|calls|] == calls;
  }

  // ----- CappedBuffer -----

  datatype Capped = Capped(buf: string, truncated: bool)

  /** Write, as a function of the buffer's fields. */
  function Write(b: Capped, cap: nat, p: string): Capped {
    var remaining := cap - |b.buf|;
    if remaining <= 0 then Capped(b.buf, b.truncated || |p| > 0)
    else if |p| > remaining then Capped(b.buf + p[..remaining], true)
    else Capped(b.buf + p, b.truncated)
  }

  function Writes(cap: nat, ps: seq<string>): Capped {
    if ps == [] then Capped([], false) else Write(Writes(cap, ps[..|ps| - 1]), cap, ps[|ps| - 1])
  }

  function Joined(ps: seq<string>): string {
    if ps == [] then [] else Joined(ps[..|ps| - 1]) + ps[|ps| - 1]
  }

  function Min(a: nat, b: nat): nat {
    if a < b then a else b
  }

  lemma {:induction false} JoinedAppend(a: seq<string>, b: seq<string>)
    ensures Joined(a + b) == Joined(a) + Joined(b)
  {
    if b == [] {
      assert a + b == a;
    } else {
      JoinedAppend(a, b[..|b| - 1]);
      assert (a + b)[..|a + b| - 1] == a + b[..|b| - 1];
    }
  }

  /** What was written stands in the order written. */
  lemma JoinedInOrder(a: seq<string>, p: string, b: seq<string>)
    ensures Joined(a + [p] + b) == Joined(a) + p + Joined(b)
  {
    JoinedAppend(a + [p], b);
    assert (a + [p])[..|a|] == a;
  }

  /** After any writes the buffer holds the first bytes of everything written, up to the cap, and knows whether
      there was more. */
  lemma {:induction false} CappedHoldsPrefix(cap: nat, ps: seq<string>)
    ensures var all := Joined(ps);
            Writes(cap, ps) == Capped(all[..Min(cap, |all|)], |all| > cap)
  {
    if ps != [] {
      var init := ps[..|ps| - 1];
      CappedHoldsPrefix(cap, init);
      var all, last := Joined(init), ps[|ps| - 1];
      if |all| >= cap {
        assert (all + last)[..cap] == all[..cap];
      } else if |last| > cap - |all| {
        assert (all + last)[..cap] == all + last[..cap - |all|];
      } else {
        assert (all + last)[..|all + last|] == all + last;
      }
    }
  }

  class CappedBuffer {
    const cap: nat
    var state: Capped
    ghost var written: seq<string>

    ghost predicate Valid()
      reads this
    {
      state == Writes(cap, written)
    }

    constructor (limit: int)
      ensures Valid() && written == [] && cap == if limit < 0 then 0 else limit
    {
      cap := if limit < 0 then 0 else limit;
      state := Capped([], false);
      written := [];
    }

    /** Always reports the whole of `p` as consumed. */
    method Write(p: string) returns (n: nat)
      requires Valid()
      modifies this
      ensures Valid() && written == old(written) + [p] && n == |p|
    {
      assert (written + [p])[..|written|] == written;
      written := written + [p];
      n := |p|;
      var remaining := cap - |state.buf|;
      if remaining <= 0 {
        if |p| > 0 {
          state := state.(truncated := true);
        }
        return;
      }
      if |p| > remaining {
        state := Capped(state.buf + p[..remaining], true);
        return;
      }
      state := state.(buf := state.buf + p);
    }

    /** String and Bytes: what was kept, and one marker if anything was dropped. */
    method Render() returns (s: string)
      requires Valid()
      ensures var all := Joined(written);
              s == if |all| <= cap then all else all[..cap] + MARKER
    {
      CappedHoldsPrefix(cap, written);
      s := state.buf;
      if state.truncated {
        s := s + MARKER;
      }
    }
  }
}
