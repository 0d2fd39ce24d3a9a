/**
 Maintenance windows (maintenance/window.go): parsing and validating entries, deciding whether a moment is
 allowed, and combining windows. A moment is a minute of the week counted from Sunday 00:00, which is all
 the evaluator reads of a time.
 */
module Maintenance {
  import opened Text

  const DAY := 1440
  const WEEK := 10080

  type Moment = m: nat | m < WEEK

  const WEEKDAYS: seq<string> := ["sun", "mon", "tue", "wed", "thu", "fri", "sat"]

  /** An entry lists weekdays and a `HH:MM-HH:MM` range; a schedule may hold nil entries. */
  datatype Entry = Nil | Entry(days: seq<string>, allow: string)

  /** A nil window reads as one with an empty schedule. */
  datatype Window = Window(schedule: seq<Entry>)

  // ----- parsing -----

  predicate TwoDigits(s: string) {
    |s| == 2 && IsDigit(s[0]) && IsDigit(s[1])
  }

  function ParseClock(s: string): Option<nat> {
    if |s| != 5 || s[2] != ':' || !TwoDigits(s[..2]) || !TwoDigits(s[3..]) then None else
    var h := Atoi(s[..2]);
    var m := Atoi(s[3..]);
    if h.None? || h.value < 0 || h.value > 23 || m.None? || m.value < 0 || m.value > 59 then None
    else Some(h.value * 60 + m.value)
  }

  function ParseRange(s: string): Option<(nat, nat)> {
    if |s| != 11 || s[5] != '-' then None else
    var start := ParseClock(s[..5]);
    var end := ParseClock(s[6..]);
    if start.None? || end.None? || start.value == end.value then None else Some((start.value, end.value))
  }

  /** The fixed-width rendering of a minute of the day. */
  function FormatClock(m: nat): string
    requires m < DAY
  {
    [DigitChar(m / 600), DigitChar(m / 60 % 10), ':', DigitChar(m % 60 / 10), DigitChar(m % 60 % 10)]
  }

  lemma TwoDigitsValue(s: string)
    requires TwoDigits(s)
    ensures Atoi(s) == Some(10 * (s[0] as int - '0' as int) + (s[1] as int - '0' as int))
  {
    assert AllDigits(s);
    assert s[..1] == [s[0]] && s[..1][..0] == [];
    assert DigitsValue(s[..1]) == s[0] as int - '0' as int;
  }

  function Digit(c: char): int {
    c as int - '0' as int
  }

  lemma ClockDigits(a: nat, b: nat, c: nat, d: nat)
    requires a < 10 && b < 10 && c < 10 && d < 10 && 10 * a + b <= 23 && 10 * c + d <= 59
    ensures var m := (10 * a + b) * 60 + (10 * c + d);
            m < DAY && m / 600 == a && m / 60 % 10 == b && m % 60 / 10 == c && m % 60 % 10 == d
  {
    var m := (10 * a + b) * 60 + (10 * c + d);
    assert m / 60 == 10 * a + b && m % 60 == 10 * c + d;
  }

  /** What the parser computes, on the characters themselves. */
  lemma ParseClockIs(s: string, m: nat)
    ensures ParseClock(s) == Some(m) <==>
              && |s| == 5 && s[2] == ':' && IsDigit(s[0]) && IsDigit(s[1]) && IsDigit(s[3]) && IsDigit(s[4])
              && 10 * Digit(s[0]) + Digit(s[1]) <= 23 && 10 * Digit(s[3]) + Digit(s[4]) <= 59
              && m == (10 * Digit(s[0]) + Digit(s[1])) * 60 + (10 * Digit(s[3]) + Digit(s[4]))
  {
    hide Atoi;
    if |s| == 5 && IsDigit(s[0]) && IsDigit(s[1]) && IsDigit(s[3]) && IsDigit(s[4]) {
      TwoDigitsValue(s[..2]);
      TwoDigitsValue(s[3..]);
    }
  }

  /** The clock parser accepts exactly the fixed-width renderings, and reads them back. */
  lemma ClockRoundTrip(s: string, m: nat)
    ensures ParseClock(s) == Some(m) <==> m < DAY && s == FormatClock(m)
  {
    hide ParseClock;
    ParseClockIs(s, m);
    if m < DAY && s == FormatClock(m) {
      var h, n := m / 60, m % 60;
      assert h / 10 == m / 600;
    }
    if ParseClock(s) == Some(m) {
      ClockDigits(Digit(s[0]), Digit(s[1]), Digit(s[3]), Digit(s[4]));
      assert forall i :: 0 <= i < 5 ==> s[i] == FormatClock(m)[i];
    }
  }

  lemma RangeRoundTrip(s: string, start: nat, end: nat)
    ensures ParseRange(s) == Some((start, end)) <==>
              start < DAY && end < DAY && start != end && s == FormatClock(start) + ['-'] + FormatClock(end)
  {
    hide ParseClock, FormatClock;
    if |s| == 11 {
      ClockRoundTrip(s[..5], start);
      ClockRoundTrip(s[6..], end);
      assert s == s[..5] + [s[5]] + s[6..];
    }
    if start < DAY && end < DAY {
      FormatLength(start);
      FormatLength(end);
      var t := FormatClock(start) + ['-'] + FormatClock(end);
      assert t[..5] == FormatClock(start) && t[6..] == FormatClock(end) && t[5] == '-';
    }
  }

  lemma FormatLength(m: nat)
    requires m < DAY
    ensures |FormatClock(m)| == 5
  {
  }

  // ----- validation -----

  predicate ValidEntry(e: Entry) {
    && e.Entry?
    && e.days != []
    && (forall i :: 0 <= i < |e.days| ==> e.days[i] in WEEKDAYS)
    && (forall i, j :: 0 <= i < j < |e.days| ==> e.days[i] != e.days[j])
    && ParseRange(e.allow).Some?
  }

  /** validateEntry, with its set of days seen so far. */
  method ValidateEntry(e: Entry) returns (ok: bool)
    ensures ok <==> ValidEntry(e)
  {
    if e.Nil? || |e.days| == 0 {
      return false;
    }
    var seen: set<string> := {};
    for i := 0 to |e.days|
      invariant forall d :: d in seen <==> d in e.days[..i]
      invariant forall k :: 0 <= k < i ==> e.days[k] in WEEKDAYS
      invariant forall j, k :: 0 <= j < k < i ==> e.days[j] != e.days[k]
    {
      if e.days[i] !in WEEKDAYS || e.days[i] in seen {
        return false;
      }
      assert e.days[..i + 1] == e.days[..i] + [e.days[i]];
      seen := seen + {e.days[i]};
    }
    return ParseRange(e.allow).Some?;
  }

  /** Validate: every entry of the schedule. */
  method Validate(w: Window) returns (ok: bool)
    ensures ok <==> forall i :: 0 <= i < |w.schedule| ==> ValidEntry(w.schedule[i])
  {
    for i := 0 to |w.schedule|
      invariant forall k :: 0 <= k < i ==> ValidEntry(w.schedule[k])
    {
      ok := ValidateEntry(w.schedule[i]);
      if !ok {
        return;
      }
    }
    return true;
  }

  // ----- evaluation -----

  /** entryAllows: today's part of the range, or the early-morning tail of yesterday's. */
  predicate EntryAllows(e: Entry, t: Moment) {
    e.Entry? && ParseRange(e.allow).Some? &&
    var (start, end) := ParseRange(e.allow).value;
    var minute := t % DAY;
    var weekday := t / DAY;
    || (WEEKDAYS[weekday] in e.days && if start <= end then start <= minute < end else minute >= start)
    || (start > end && WEEKDAYS[(weekday + 6) % 7] in e.days && minute < end)
  }

  predicate Allowed(w: Window, t: Moment) {
    w.schedule == [] || exists i :: 0 <= i < |w.schedule| && EntryAllows(w.schedule[i], t)
  }

  method IsAllowed(w: Window, t: Moment) returns (r: bool)
    ensures r == Allowed(w, t)
  {
    if |w.schedule| == 0 {
      return true;
    }
    for i := 0 to |w.schedule|
      invariant forall k :: 0 <= k < i ==> !EntryAllows(w.schedule[k], t)
    {
      if EntryAllows(w.schedule[i], t) {
        return true;
      }
    }
    return false;
  }

  function Concat(ws: seq<Window>): seq<Entry> {
    if ws == [] then [] else Concat(ws[..|ws| - 1]) + ws[|ws| - 1].schedule
  }

  /** Union: empty as soon as one window is, else all entries in order. */
  method Union(ws: seq<Window>) returns (u: Window)
    ensures u.schedule == if exists i :: 0 <= i < |ws| && ws[i].schedule == [] then [] else Concat(ws)
    ensures forall t: Moment :: Allowed(u, t) <==> ws == [] || exists i :: 0 <= i < |ws| && Allowed(ws[i], t)
  {
    for i := 0 to |ws|
      invariant forall k :: 0 <= k < i ==> ws[k].schedule != []
    {
      if |ws[i].schedule| == 0 {
        return Window([]);
      }
    }
    u := Window([]);
    for i := 0 to |ws|
      invariant u.schedule == Concat(ws[..i])
    {
      assert ws[..i + 1][..i] == ws[..i];
      u := Window(u.schedule + ws[i].schedule);
    }
    assert ws[..|ws|] == ws;
    forall t: Moment
      ensures Allowed(u, t) <==> ws == [] || exists i :: 0 <= i < |ws| && Allowed(ws[i], t)
    {
      ConcatAllows(ws, t);
    }
  }

  predicate SomeAllows(entries: seq<Entry>, t: Moment) {
    exists i :: 0 <= i < |entries| && EntryAllows(entries[i], t)
  }

  lemma {:induction false} ConcatAllows(ws: seq<Window>, t: Moment)
    requires forall k :: 0 <= k < |ws| ==> ws[k].schedule != []
    ensures SomeAllows(Concat(ws), t) <==> exists i :: 0 <= i < |ws| && SomeAllows(ws[i].schedule, t)
    ensures forall i :: 0 <= i < |ws| ==> (Allowed(ws[i], t) <==> SomeAllows(ws[i].schedule, t))
    ensures ws != [] ==> Concat(ws) != []
  {
    hide EntryAllows;
    if ws != [] {
      var init := ws[..|ws| - 1];
      var last := ws[|ws| - 1];
      ConcatAllows(init, t);
      AppendAllows(Concat(init), last.schedule, t);
      if SomeAllows(Concat(init), t) {
        var i :| 0 <= i < |init| && SomeAllows(init[i].schedule, t);
        assert ws[i] == init[i];
      }
      forall i | 0 <= i < |ws| && SomeAllows(ws[i].schedule, t)
        ensures SomeAllows(Concat(ws), t)
      {
        if i < |init| {
          assert init[i] == ws[i];
        }
      }
    }
  }

  lemma AppendAllows(a: seq<Entry>, b: seq<Entry>, t: Moment)
    ensures SomeAllows(a + b, t) <==> SomeAllows(a, t) || SomeAllows(b, t)
  {
    hide EntryAllows;
    if SomeAllows(a, t) {
      var i :| 0 <= i < |a| && EntryAllows(a[i], t);
      assert (a + b)[i] == a[i];
    }
    if SomeAllows(b, t) {
      var i :| 0 <= i < |b| && EntryAllows(b[i], t);
      assert (a + b)[|a| + i] == b[i];
    }
  }

  // ----- what an entry means: arcs of the week -----

  /** The week is a circle: `t` lies on the arc of `length` minutes that starts at minute `base`. */
  predicate OnArc(t: Moment, base: nat, length: nat) {
    Offset(t, base) < length
  }

  /** How far `t` is behind `base`, going round the week. */
  function Offset(t: nat, base: nat): nat {
    (t - base) % WEEK
  }

  function ArcLength(start: nat, end: nat): nat {
    (end - start) % DAY
  }

  function DayIndex(day: string): (d: nat)
    requires day in WEEKDAYS
    ensures d < 7 && WEEKDAYS[d] == day
  {
    var d: nat :| d < 7 && WEEKDAYS[d] == day; d
  }

  lemma ModWeek(x: int)
    requires -WEEK <= x < WEEK
    ensures x % WEEK == if x < 0 then x + WEEK else x
  {
  }

  lemma ModDay(start: nat, end: nat)
    requires start < DAY && end < DAY
    ensures ArcLength(start, end) == if end < start then end - start + DAY else end - start
  {
  }

  /** One listed day's arc covers the minutes the evaluator accepts because of that day. */
  lemma ArcOfDay(weekday: nat, minute: nat, d: nat, start: nat, end: nat)
    requires weekday < 7 && minute < DAY && d < 7 && start < DAY && end < DAY && start != end
    ensures OnArc(weekday * DAY + minute, d * DAY + start, ArcLength(start, end)) <==>
              || (weekday == d && if start <= end then start <= minute < end else minute >= start)
              || (start > end && d == (weekday + 6) % 7 && minute < end)
  {
    ModDay(start, end);
    ModWeek(weekday * DAY + minute - (d * DAY + start));
  }

  /** The evaluator's test, for one listed day. */
  predicate DayAllows(day: string, start: nat, end: nat, t: Moment) {
    || (WEEKDAYS[t / DAY] == day && if start <= end then start <= t % DAY < end else t % DAY >= start)
    || (start > end && WEEKDAYS[(t / DAY + 6) % 7] == day && t % DAY < end)
  }

  lemma DayAllowsIsArc(day: string, start: nat, end: nat, t: Moment)
    requires day in WEEKDAYS && start < DAY && end < DAY && start != end
    ensures DayAllows(day, start, end, t) <==> OnArc(t, DayIndex(day) * DAY + start, ArcLength(start, end))
  {
    hide OnArc, ArcLength;
    var weekday, minute := t / DAY, t % DAY;
    ArcOfDay(weekday, minute, DayIndex(day), start, end);
    WeekdayUnique(DayIndex(day), weekday);
    WeekdayUnique(DayIndex(day), (weekday + 6) % 7);
  }

  lemma EntryAllowsSomeDay(e: Entry, t: Moment)
    requires e.Entry? && ParseRange(e.allow).Some?
    ensures var (start, end) := ParseRange(e.allow).value;
            EntryAllows(e, t) <==> exists i :: 0 <= i < |e.days| && DayAllows(e.days[i], start, end, t)
  {
    hide ParseRange;
    var (start, end) := ParseRange(e.allow).value;
    forall i | 0 <= i < |e.days| && DayAllows(e.days[i], start, end, t)
      ensures EntryAllows(e, t)
    {
      assert e.days[i] in e.days;
    }
  }

  /** An entry allows a moment exactly if the moment lies on the arc of one of the listed days, an arc that
      runs from the day's start time for the length of the range, through midnight and through the end of the
      week. */
  lemma AllowsIsArcs(e: Entry, t: Moment)
    requires ValidEntry(e)
    ensures var (start, end) := ParseRange(e.allow).value;
            EntryAllows(e, t) <==>
              exists i :: 0 <= i < |e.days| && OnArc(t, DayIndex(e.days[i]) * DAY + start, ArcLength(start, end))
  {
    hide ParseRange, OnArc, EntryAllows, DayAllows, ArcLength;
    var (start, end) := ParseRange(e.allow).value;
    RangeBounds(e.allow);
    EntryAllowsSomeDay(e, t);
    forall i | 0 <= i < |e.days|
      ensures DayAllows(e.days[i], start, end, t) <==> OnArc(t, DayIndex(e.days[i]) * DAY + start, ArcLength(start, end))
    {
      DayAllowsIsArc(e.days[i], start, end, t);
    }
  }

  lemma WeekdayUnique(d: nat, d': nat)
    requires d < 7 && d' < 7
    ensures WEEKDAYS[d] == WEEKDAYS[d'] <==> d == d'
  {
    assert WEEKDAYS[0][0] == 's' && WEEKDAYS[0][1] == 'u';
    assert WEEKDAYS[1][0] == 'm';
    assert WEEKDAYS[2][0] == 't' && WEEKDAYS[2][1] == 'u';
    assert WEEKDAYS[3][0] == 'w';
    assert WEEKDAYS[4][0] == 't' && WEEKDAYS[4][1] == 'h';
    assert WEEKDAYS[5][0] == 'f';
    assert WEEKDAYS[6][0] == 's' && WEEKDAYS[6][1] == 'a';
  }

  lemma RangeBounds(s: string)
    requires ParseRange(s).Some?
    ensures var (start, end) := ParseRange(s).value; start < DAY && end < DAY && start != end
  {
    var (start, end) := ParseRange(s).value;
    RangeRoundTrip(s, start, end);
  }

  // ----- how many minutes an entry allows -----

  ghost function Arc(base: nat, length: nat): set<nat> {
    set t | 0 <= t < WEEK && Offset(t, base) < length
  }

  lemma {:induction false} ArcSize(base: nat, length: nat)
    requires length <= WEEK
    ensures |Arc(base, length)| == length
  {
    hide Offset;
    if length == 0 {
      assert Arc(base, 0) == {};
    } else {
      ArcSize(base, length - 1);
      var last := (base + length - 1) % WEEK;
      forall t | 0 <= t < WEEK
        ensures Offset(t, base) == length - 1 <==> t == last
      {
        OffsetInverse(t, base, length - 1);
      }
      assert Arc(base, length) == Arc(base, length - 1) + {last};
    }
  }

  lemma OffsetInverse(t: nat, base: nat, k: nat)
    requires t < WEEK && k < WEEK
    ensures Offset(t, base) == k <==> t == (base + k) % WEEK
  {
    var q := (t - base) / WEEK;
    var p := (base + k) / WEEK;
    assert t - base == q * WEEK + (t - base) % WEEK;
    assert base + k == p * WEEK + (base + k) % WEEK;
  }

  /** The arc of one listed day. */
  ghost function DayArc(day: string, start: nat, length: nat): set<nat>
    requires day in WEEKDAYS
  {
    Arc(DayIndex(day) * DAY + start, length)
  }

  /** Arcs of different days never meet: they start whole days apart and are shorter than a day. */
  lemma ArcsApart(day: string, day': string, start: nat, length: nat)
    requires day in WEEKDAYS && day' in WEEKDAYS && day != day' && start < DAY && length < DAY
    ensures DayArc(day, start, length) !! DayArc(day', start, length)
  {
    var d, d' := DayIndex(day), DayIndex(day');
    forall t | t in DayArc(day, start, length)
      ensures t !in DayArc(day', start, length)
    {
      ModWeek(t - (d * DAY + start));
      ModWeek(t - (d' * DAY + start));
    }
  }

  ghost predicate DistinctWeekdays(days: seq<string>) {
    && (forall i :: 0 <= i < |days| ==> days[i] in WEEKDAYS)
    && (forall i, j :: 0 <= i < j < |days| ==> days[i] != days[j])
  }

  /** All minutes on the arc of some listed day. */
  ghost function Covered(days: seq<string>, start: nat, length: nat): set<nat>
    requires DistinctWeekdays(days)
  {
    if days == [] then {}
    else Covered(days[..|days| - 1], start, length) + DayArc(days[|days| - 1], start, length)
  }

  lemma {:induction false} InCovered(days: seq<string>, start: nat, length: nat, t: nat)
    requires DistinctWeekdays(days)
    ensures t in Covered(days, start, length) <==> exists i :: 0 <= i < |days| && t in DayArc(days[i], start, length)
  {
    hide DayArc;
    if days != [] {
      var init := days[..|days| - 1];
      InCovered(init, start, length, t);
      if t in Covered(init, start, length) {
        var i :| 0 <= i < |init| && t in DayArc(init[i], start, length);
        assert days[i] == init[i];
      }
      if i :| 0 <= i < |init| && t in DayArc(days[i], start, length) {
        assert init[i] == days[i];
      }
    }
  }

  lemma {:induction false} CoveredSize(days: seq<string>, start: nat, length: nat)
    requires DistinctWeekdays(days) && start < DAY && length < DAY
    ensures |Covered(days, start, length)| == |days| * length
  {
    hide DayArc;
    if days != [] {
      var init, last := days[..|days| - 1], days[|days| - 1];
      CoveredSize(init, start, length);
      assert |DayArc(last, start, length)| == length by { DayArcSize(last, start, length); }
      forall t | t in Covered(init, start, length)
        ensures t !in DayArc(last, start, length)
      {
        InCovered(init, start, length, t);
        var i :| 0 <= i < |init| && t in DayArc(init[i], start, length);
        ArcsApart(init[i], last, start, length);
      }
      Multiples(|days|, length);
    }
  }

  lemma DayArcSize(day: string, start: nat, length: nat)
    requires day in WEEKDAYS && length < DAY
    ensures |DayArc(day, start, length)| == length
  {
    hide Arc;
    ArcSize(DayIndex(day) * DAY + start, length);
  }

  lemma Multiples(n: nat, length: nat)
    requires n > 0
    ensures n * length == (n - 1) * length + length
  {
  }

  /** A valid entry allows exactly as many minutes a week as it lists days, times the length of its range. */
  lemma AllowedMinutes(e: Entry)
    requires ValidEntry(e)
    ensures var (start, end) := ParseRange(e.allow).value;
            |set t: Moment | EntryAllows(e, t)| == |e.days| * ArcLength(start, end)
  {
    hide ParseRange, EntryAllows, ArcLength, DayArc;
    var (start, end) := ParseRange(e.allow).value;
    RangeBounds(e.allow);
    ModDay(start, end);
    var length := ArcLength(start, end);
    CoveredSize(e.days, start, length);
    var allowed := set t: Moment | EntryAllows(e, t);
    forall t
      ensures t in allowed <==> t in Covered(e.days, start, length)
    {
      InCovered(e.days, start, length, t);
      AllowedIsCovered(e, start, length, t);
    }
    assert allowed == Covered(e.days, start, length);
  }

  /** An entry without days is refused, and so a valid one allows some minute of the week. */
  lemma ValidAllowsSome(e: Entry)
    ensures e.Entry? && e.days == [] ==> !ValidEntry(e)
    ensures ValidEntry(e) ==> exists t: Moment :: EntryAllows(e, t)
  {
    if ValidEntry(e) {
      hide ParseRange, EntryAllows, Offset;
      var (start, end) := ParseRange(e.allow).value;
      RangeBounds(e.allow);
      ModDay(start, end);
      assert e.days[0] in WEEKDAYS;
      var t: Moment := DayIndex(e.days[0]) * DAY + start;
      assert OnArc(t, t, ArcLength(start, end)) by { NoOffset(t); }
      AllowsIsArcs(e, t);
    }
  }

  lemma NoOffset(t: nat)
    ensures Offset(t, t) == 0
  {
  }

  /** The week starts on Sunday. */
  lemma DaysInOrder()
    ensures forall day :: day in WEEKDAYS <==> day in {"sun", "mon", "tue", "wed", "thu", "fri", "sat"}
    ensures DayIndex("sun") == 0 && DayIndex("mon") == 1 && DayIndex("tue") == 2 && DayIndex("wed") == 3
    ensures DayIndex("thu") == 4 && DayIndex("fri") == 5 && DayIndex("sat") == 6
  {
    var days := WEEKDAYS;
    assert days[0] == "sun" && days[1] == "mon" && days[2] == "tue" && days[3] == "wed";
    assert days[4] == "thu" && days[5] == "fri" && days[6] == "sat";
    forall d | 0 <= d < 7
      ensures DayIndex(days[d]) == d
    {
      WeekdayUnique(DayIndex(days[d]), d);
    }
  }

  lemma AllowedIsCovered(e: Entry, start: nat, length: nat, t: nat)
    requires ValidEntry(e) && start == ParseRange(e.allow).value.0 && length == ArcLength(start, ParseRange(e.allow).value.1)
    ensures (t < WEEK && EntryAllows(e, t)) <==> exists i :: 0 <= i < |e.days| && t in DayArc(e.days[i], start, length)
  {
    hide ParseRange, EntryAllows, ArcLength, Offset;
    if t < WEEK {
      AllowsIsArcs(e, t);
      assert forall i :: 0 <= i < |e.days| ==>
        (OnArc(t, DayIndex(e.days[i]) * DAY + start, length) <==> t in DayArc(e.days[i], start, length));
    }
  }
}
