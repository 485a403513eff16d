/**
 * Dates in a task's text: `isValidISODate` and `extractAndStripDates` of the
 * task scanner.
 *
 * Four markers are looked for, in this order: created (U+2795), scheduled
 * (U+23F3), due (U+1F4C5) and completed (U+2705). For each, the global
 * pattern "whitespace, marker, whitespace, DDDD-DD-DD, optionally whitespace
 * and DD:DD" is searched for repeatedly. A match whose date is a real
 * calendar date is recorded (a later one overwrites an earlier one) and cut
 * out of the text, and the search starts again from the beginning; a match
 * with an impossible date is left in place and the search goes on after it.
 * At the end runs of whitespace are collapsed and the text is trimmed.
 */
module ScannerDates {
  import opened Types
  import opened Text

  // ---------------------------------------------------------------------------
  // `isValidISODate`.

  /** The shape `^\d{4}-\d{2}-\d{2}$`. */
  predicate DateShaped(s: string) {
    |s| == 10 && s[4] == '-' && s[7] == '-' &&
    forall i :: 0 <= i < 10 && i != 4 && i != 7 ==> IsDigit(s[i])
  }

  function YearOf(s: string): nat
    requires DateShaped(s)
  {
    DecimalValue(s[0..4])
  }

  function MonthOf(s: string): nat
    requires DateShaped(s)
  {
    DecimalValue(s[5..7])
  }

  function DayOf(s: string): nat
    requires DateShaped(s)
  {
    DecimalValue(s[8..10])
  }

  /** Gregorian leap years, which is the calendar `Date` uses for every year. */
  predicate IsLeapYear(y: int) {
    y % 4 == 0 && (y % 100 != 0 || y % 400 == 0)
  }

  function DaysInMonth(y: int, m: int): (n: int)
    requires 1 <= m <= 12
    ensures 28 <= n <= 31
  {
    if m == 2 then (if IsLeapYear(y) then 29 else 28)
    else if m == 4 || m == 6 || m == 9 || m == 11 then 30
    else 31
  }

  /** The year, month (1-based) and day that `new Date(Date.UTC(y, m - 1, d))`
      reports, for a month in 1..12 and a day in 1..31. `Date.UTC` reads a
      year in 0..99 as 1900 plus that year, and a day past the end of the
      month runs over into the next month. */
  function UtcDate(y: nat, m: nat, d: nat): (r: (int, int, int))
    requires 1 <= m <= 12 && 1 <= d <= 31
  {
    var year := if y <= 99 then 1900 + y else y;
    if d <= DaysInMonth(year, m) then (year, m, d)
    else (year, m + 1, d - DaysInMonth(year, m))
  }

  /** `isValidISODate`: the shape, the month and day ranges, and the check
      that the date survives a round trip through `Date`. */
  predicate IsValidISODate(s: string)
    ensures IsValidISODate(s) ==>
      DateShaped(s) && YearOf(s) >= 100 && 1 <= MonthOf(s) <= 12 &&
      1 <= DayOf(s) <= DaysInMonth(YearOf(s), MonthOf(s))
  {
    DateShaped(s) &&
    1 <= MonthOf(s) <= 12 && 1 <= DayOf(s) <= 31 &&
    UtcDate(YearOf(s), MonthOf(s), DayOf(s)) == (YearOf(s), MonthOf(s), DayOf(s))
  }

  /** The round trip through `Date` accepts exactly the calendar dates of the
      years 100 to 9999: a day that does not exist in its month moves the
      date, and a two-digit year is moved into the 1900s. */
  lemma ValidDateIff(s: string)
    requires DateShaped(s)
    ensures IsValidISODate(s) <==>
      YearOf(s) >= 100 && 1 <= MonthOf(s) <= 12 &&
      1 <= DayOf(s) <= DaysInMonth(YearOf(s), MonthOf(s))
  {
  }

  /** Digits of a date written out, so that concrete dates can be evaluated. */
  lemma DateParts(s: string, y: nat, m: nat, d: nat)
    requires DateShaped(s)
    requires y == (s[0] as int - '0' as int) * 1000 + (s[1] as int - '0' as int) * 100 +
                 (s[2] as int - '0' as int) * 10 + (s[3] as int - '0' as int)
    requires m == (s[5] as int - '0' as int) * 10 + (s[6] as int - '0' as int)
    requires d == (s[8] as int - '0' as int) * 10 + (s[9] as int - '0' as int)
    ensures YearOf(s) == y && MonthOf(s) == m && DayOf(s) == d
  {
    assert s[0..4] == [s[0], s[1], s[2], s[3]];
    FourDigits(s[0], s[1], s[2], s[3]);
    assert s[5..7] == [s[5], s[6]];
    TwoDigits(s[5], s[6]);
    assert s[8..10] == [s[8], s[9]];
    TwoDigits(s[8], s[9]);
  }

  lemma TwoDigits(a: char, b: char)
    requires IsDigit(a) && IsDigit(b)
    ensures DecimalValue([a, b]) == (a as int - '0' as int) * 10 + (b as int - '0' as int)
  {
    assert [a, b][..1] == [a];
    assert [a][..0] == [];
    assert DecimalValue([a]) == a as int - '0' as int;
  }

  lemma FourDigits(a: char, b: char, c: char, d: char)
    requires IsDigit(a) && IsDigit(b) && IsDigit(c) && IsDigit(d)
    ensures DecimalValue([a, b, c, d]) ==
      (a as int - '0' as int) * 1000 + (b as int - '0' as int) * 100 +
      (c as int - '0' as int) * 10 + (d as int - '0' as int)
  {
    assert [a, b, c, d][..3] == [a, b, c];
    assert [a, b, c][..2] == [a, b];
    TwoDigits(a, b);
  }

  /** A leap day, a missing leap day, a day past the end of its month and a
      two-digit year. */
  lemma ValidDateExamples()
    ensures IsValidISODate("2024-02-29")
    ensures !IsValidISODate("2023-02-29")
    ensures !IsValidISODate("2021-04-31")
    ensures !IsValidISODate("0050-01-01")
    ensures !IsValidISODate("2024-13-01")
  {
    LeapDay();
    MissingLeapDay();
    DayPastMonthEnd();
    TwoDigitYear();
    MonthThirteen();
  }

  lemma LeapDay()
    ensures IsValidISODate("2024-02-29")
  {
    DateParts("2024-02-29", 2024, 2, 29);
  }

  lemma MissingLeapDay()
    ensures !IsValidISODate("2023-02-29")
  {
    DateParts("2023-02-29", 2023, 2, 29);
  }

  lemma DayPastMonthEnd()
    ensures !IsValidISODate("2021-04-31")
  {
    DateParts("2021-04-31", 2021, 4, 31);
  }

  lemma TwoDigitYear()
    ensures !IsValidISODate("0050-01-01")
  {
    DateParts("0050-01-01", 50, 1, 1);
  }

  lemma MonthThirteen()
    ensures !IsValidISODate("2024-13-01")
  {
    DateParts("2024-13-01", 2024, 13, 1);
  }

  // ---------------------------------------------------------------------------
  // The date patterns.

  const CreatedMarker: char := '\U{2795}'
  const ScheduledMarker: char := '\U{23F3}'
  const DueMarker: char := '\U{1F4C5}'
  const CompletedMarker: char := '\U{2705}'

  /** The markers in the order the patterns are applied. */
  const Markers: seq<char> := [CreatedMarker, ScheduledMarker, DueMarker, CompletedMarker]

  /** The markers are neither whitespace nor digits, which is what keeps two
      matches from overlapping. */
  predicate IsMarker(mk: char) {
    !IsSpace(mk) && !IsDigit(mk) && mk != '-' && mk != ':'
  }

  lemma MarkersAreMarkers()
    ensures forall i :: 0 <= i < |Markers| ==> IsMarker(Markers[i])
  {
  }

  /** The shape of a date at index `i`. */
  predicate DateShapeAt(s: string, i: nat)
    requires i + 10 <= |s|
  {
    DateShaped(s[i..i + 10])
  }

  /** End of the optional `(?:\s+\d{2}:\d{2})?` after a date that ends at
      `e`. The greedy whitespace run must be followed by the time; giving back
      whitespace cannot help, since a digit is not whitespace. */
  function TimeEnd(s: string, e: nat): (r: nat)
    requires e <= |s|
    ensures r == e || (e < r <= |s| && !IsSpace(s[r - 1]))
  {
    var j := SpaceRunEnd(s, e);
    if j > e && j + 5 <= |s| && IsDigit(s[j]) && IsDigit(s[j + 1]) && s[j + 2] == ':' &&
       IsDigit(s[j + 3]) && IsDigit(s[j + 4])
    then j + 5
    else e
  }

  /** The end of a match of the marker's pattern beginning at `p`; the date
      is `s[p + 3..p + 13]`. */
  function DateMatchAt(s: string, mk: char, p: nat): (r: Option<nat>)
    requires p <= |s|
    ensures r.Some? ==> p + 13 <= r.value <= |s|
  {
    if p + 13 <= |s| && IsSpace(s[p]) && s[p + 1] == mk && IsSpace(s[p + 2]) && DateShapeAt(s, p + 3)
    then Some(TimeEnd(s, p + 13))
    else None
  }

  /** `re.exec(out)` from `lastIndex = p`: the first match at or after `p`,
      as the start of the match and its end. */
  function FindDate(s: string, mk: char, p: nat): (r: Option<(nat, nat)>)
    requires p <= |s|
    ensures r.None? ==> forall q :: p <= q <= |s| ==> DateMatchAt(s, mk, q).None?
    ensures r.Some? ==> p <= r.value.0 && r.value.0 + 13 <= |s|
    ensures r.Some? ==> DateMatchAt(s, mk, r.value.0) == Some(r.value.1)
    ensures r.Some? ==> forall q :: p <= q < r.value.0 ==> DateMatchAt(s, mk, q).None?
    decreases |s| - p
  {
    match DateMatchAt(s, mk, p)
    case Some(e) => Some((p, e))
    case None => if p == |s| then None else FindDate(s, mk, p + 1)
  }

  /** A match of the marker's pattern at `q` whose date is valid: one that
      the pass removes. */
  predicate ValidMatchAt(s: string, mk: char, q: nat) {
    q <= |s| && DateMatchAt(s, mk, q).Some? && IsValidISODate(s[q + 3..q + 13])
  }

  /** One pattern's `while ((m = re.exec(out)))` loop, from `lastIndex = last`
      with the value recorded so far `v`: the remaining text and the value. */
  function DatePass(s: string, mk: char, last: nat, v: Option<string>): (string, Option<string>)
    requires last <= |s|
    decreases |s|, |s| - last
  {
    match FindDate(s, mk, last)
    case None => (s, v)
    case Some((st, en)) =>
      if IsValidISODate(s[st + 3..st + 13]) then
        DatePass(s[..st] + s[en..], mk, 0, Some(s[st + 3..st + 13]))
      else
        DatePass(s, mk, en, v)
  }

  /** The record of the four passes. */
  datatype DateFields = DateFields(
    text: string,
    createdDate: Option<string>,
    scheduledDate: Option<string>,
    dueDate: Option<string>,
    completedDate: Option<string>)

  /** The first `n` passes: the text and the four values, in marker order. */
  function Passes(text: string, n: nat): (r: (string, seq<Option<string>>))
    requires n <= |Markers|
    ensures |r.1| == |Markers|
  {
    if n == 0 then (text, [None, None, None, None])
    else
      var prev := Passes(text, n - 1);
      var pass := DatePass(prev.0, Markers[n - 1], 0, None);
      (pass.0, prev.1[n - 1 := pass.1])
  }

  /** `extractAndStripDates`. */
  function DatesOf(text: string): DateFields {
    var r := Passes(text, |Markers|);
    DateFields(Squish(r.0), r.1[0], r.1[1], r.1[2], r.1[3])
  }

  /** One pattern's loop as the source writes it: the `exec` loop that cuts out
      valid matches and restarts, and steps over invalid ones. */
  method StripMarker(text: string, mk: char) returns (out: string, value: Option<string>)
    ensures (out, value) == DatePass(text, mk, 0, None)
  {
    out := text;
    value := None;
    var last: nat := 0;
    var m := FindDate(out, mk, last);
    while m.Some?
      invariant last <= |out|
      invariant m == FindDate(out, mk, last)
      invariant DatePass(out, mk, last, value) == DatePass(text, mk, 0, None)
      decreases |out|, |out| - last
    {
      var st := m.value.0;
      var en := m.value.1;
      var iso := out[st + 3..st + 13];
      if IsValidISODate(iso) {
        value := Some(iso);
        out := out[..st] + out[en..];
        last := 0;
      } else {
        last := en;
      }
      m := FindDate(out, mk, last);
    }
  }

  /** `extractAndStripDates`: the loop over the four patterns, then the
      whitespace cleanup. */
  method ExtractAndStripDates(text: string) returns (r: DateFields)
    ensures r == DatesOf(text)
  {
    var out := text;
    var found: seq<Option<string>> := [None, None, None, None];
    for n := 0 to |Markers|
      invariant (out, found) == Passes(text, n)
    {
      var value;
      out, value := StripMarker(out, Markers[n]);
      found := found[n := value];
    }
    r := DateFields(Squish(out), found[0], found[1], found[2], found[3]);
  }

  // ---------------------------------------------------------------------------
  // What a pass achieves.

  /** No match of the pattern can begin strictly inside another match. */
  lemma NoMatchInside(s: string, mk: char, st: nat, en: nat, q: nat)
    requires IsMarker(mk)
    requires st <= |s| && DateMatchAt(s, mk, st) == Some(en)
    requires st < q < en
    ensures DateMatchAt(s, mk, q).None?
  {
    if q <= st + 12 {
      NoMatchInDate(s, mk, st, q);
    } else {
      NoMatchInTime(s, mk, st + 13, q);
    }
  }

  /** Not at the marker, the space after it, or inside the date. */
  lemma NoMatchInDate(s: string, mk: char, st: nat, q: nat)
    requires IsMarker(mk)
    requires st + 13 <= |s| && s[st + 1] == mk && DateShapeAt(s, st + 3)
    requires st < q <= st + 12
    ensures DateMatchAt(s, mk, q).None?
  {
    var d := s[st + 3..st + 13];
    assert DateShaped(d);
    if q == st + 2 {
      assert s[q + 1] == d[0];
    } else if q > st + 2 {
      assert s[q] == d[q - st - 3];
    }
  }

  /** Not inside the optional time after a date that ends at `e`. */
  lemma NoMatchInTime(s: string, mk: char, e: nat, q: nat)
    requires IsMarker(mk)
    requires e <= |s| && e <= q < TimeEnd(s, e)
    ensures DateMatchAt(s, mk, q).None?
  {
    var j := SpaceRunEnd(s, e);
    if q < j {
      assert IsSpace(s[q + 1]) || q + 1 == j;
    }
  }

  /** The matches before the end of an invalid match are invalid too. */
  lemma InvalidPrefix(s: string, mk: char, last: nat, st: nat, en: nat)
    requires IsMarker(mk)
    requires last <= |s|
    requires forall q: nat :: q < last ==> !ValidMatchAt(s, mk, q)
    requires FindDate(s, mk, last) == Some((st, en))
    requires !IsValidISODate(s[st + 3..st + 13])
    ensures forall q: nat :: q < en ==> !ValidMatchAt(s, mk, q)
  {
    forall q: nat | last <= q < en ensures !ValidMatchAt(s, mk, q) {
      InvalidBeforeEnd(s, mk, last, st, en, q);
    }
  }

  lemma InvalidBeforeEnd(s: string, mk: char, last: nat, st: nat, en: nat, q: nat)
    requires IsMarker(mk)
    requires last <= q < en && last <= |s|
    requires FindDate(s, mk, last) == Some((st, en))
    requires !IsValidISODate(s[st + 3..st + 13])
    ensures !ValidMatchAt(s, mk, q)
  {
    if q < st {
      assert DateMatchAt(s, mk, q).None?;
    } else if q > st {
      NoMatchInside(s, mk, st, en, q);
    }
  }

  /** After a pass no valid match of its pattern is left in the text. */
  lemma {:induction false} DatePassClean(s: string, mk: char, last: nat, v: Option<string>)
    requires IsMarker(mk)
    requires last <= |s|
    requires forall q: nat :: q < last ==> !ValidMatchAt(s, mk, q)
    ensures forall q: nat :: !ValidMatchAt(DatePass(s, mk, last, v).0, mk, q)
    decreases |s|, |s| - last
  {
    var f := FindDate(s, mk, last);
    if f.None? {
      assert DatePass(s, mk, last, v).0 == s;
    } else {
      var st, en := f.value.0, f.value.1;
      DatePassStep(s, mk, last, v, st, en);
      var date := s[st + 3..st + 13];
      if IsValidISODate(date) {
        DatePassClean(s[..st] + s[en..], mk, 0, Some(date));
      } else {
        InvalidPrefix(s, mk, last, st, en);
        DatePassClean(s, mk, en, v);
      }
    }
  }

  /** One step of a pass, unfolded. */
  lemma DatePassStep(s: string, mk: char, last: nat, v: Option<string>, st: nat, en: nat)
    requires last <= |s|
    requires FindDate(s, mk, last) == Some((st, en))
    ensures st + 13 <= en <= |s|
    ensures IsValidISODate(s[st + 3..st + 13]) ==>
      DatePass(s, mk, last, v) == DatePass(s[..st] + s[en..], mk, 0, Some(s[st + 3..st + 13]))
    ensures !IsValidISODate(s[st + 3..st + 13]) ==>
      DatePass(s, mk, last, v) == DatePass(s, mk, en, v)
  {
  }

  /** The value a pass leaves is the one it started with or a valid date, and
      the text only shrinks. */
  lemma {:induction false} DatePassValue(s: string, mk: char, last: nat, v: Option<string>)
    requires last <= |s|
    ensures var r := DatePass(s, mk, last, v);
      (r.1 == v || (r.1.Some? && IsValidISODate(r.1.value))) && |r.0| <= |s|
    decreases |s|, |s| - last
  {
    var f := FindDate(s, mk, last);
    if f.Some? {
      var st, en := f.value.0, f.value.1;
      DatePassStep(s, mk, last, v, st, en);
      var date := s[st + 3..st + 13];
      if IsValidISODate(date) {
        var t := s[..st] + s[en..];
        DatePassValue(t, mk, 0, Some(date));
      } else {
        DatePassValue(s, mk, en, v);
      }
    }
  }

  /** With no valid match from `last` on, a pass changes nothing: the
      matches with impossible dates stay in the text, and the value is the
      one it started with. */
  lemma {:induction false} DatePassUntouched(s: string, mk: char, last: nat, v: Option<string>)
    requires last <= |s|
    requires forall q: nat :: last <= q ==> !ValidMatchAt(s, mk, q)
    ensures DatePass(s, mk, last, v) == (s, v)
    decreases |s| - last
  {
    var f := FindDate(s, mk, last);
    if f.Some? {
      var st, en := f.value.0, f.value.1;
      SkipInvalid(s, mk, last, v, st, en);
      DatePassUntouched(s, mk, en, v);
    }
  }

  /** A match that is not valid is stepped over. */
  lemma SkipInvalid(s: string, mk: char, last: nat, v: Option<string>, st: nat, en: nat)
    requires last <= |s|
    requires FindDate(s, mk, last) == Some((st, en))
    requires !ValidMatchAt(s, mk, st)
    ensures last < en <= |s|
    ensures DatePass(s, mk, last, v) == DatePass(s, mk, en, v)
  {
    DatePassStep(s, mk, last, v, st, en);
  }

  /** The dates a pass cuts out, in the order it cuts them. */
  function CutDates(s: string, mk: char, last: nat): (r: seq<string>)
    requires last <= |s|
    ensures forall k :: 0 <= k < |r| ==> IsValidISODate(r[k])
    decreases |s|, |s| - last
  {
    match FindDate(s, mk, last)
    case None => []
    case Some((st, en)) =>
      if IsValidISODate(s[st + 3..st + 13]) then
        [s[st + 3..st + 13]] + CutDates(s[..st] + s[en..], mk, 0)
      else
        CutDates(s, mk, en)
  }

  /** The dates cut, one step unfolded. */
  lemma CutStep(s: string, mk: char, last: nat, st: nat, en: nat)
    requires last <= |s|
    requires FindDate(s, mk, last) == Some((st, en))
    ensures st + 13 <= en <= |s|
    ensures IsValidISODate(s[st + 3..st + 13]) ==>
      CutDates(s, mk, last) == [s[st + 3..st + 13]] + CutDates(s[..st] + s[en..], mk, 0)
    ensures !IsValidISODate(s[st + 3..st + 13]) ==> CutDates(s, mk, last) == CutDates(s, mk, en)
  {
  }

  /** The value a pass leaves is the last date it cuts, or the value it
      started with when it cuts nothing; each cut removes at least the
      thirteen characters of the space, marker, space and date. */
  lemma {:induction false} DatePassRecordsLastCut(s: string, mk: char, last: nat, v: Option<string>)
    requires last <= |s|
    ensures var c := CutDates(s, mk, last);
      DatePass(s, mk, last, v).1 == (if c == [] then v else Some(c[|c| - 1]))
    ensures |DatePass(s, mk, last, v).0| + 13 * |CutDates(s, mk, last)| <= |s|
    decreases |s|, |s| - last, 1
  {
    var f := FindDate(s, mk, last);
    if f.Some? {
      var st, en := f.value.0, f.value.1;
      if IsValidISODate(s[st + 3..st + 13]) {
        RecordCut(s, mk, last, v, st, en);
      } else {
        RecordSkip(s, mk, last, v, st, en);
      }
    }
  }

  lemma {:induction false} RecordCut(s: string, mk: char, last: nat, v: Option<string>, st: nat, en: nat)
    requires last <= |s|
    requires FindDate(s, mk, last) == Some((st, en)) && IsValidISODate(s[st + 3..st + 13])
    ensures var c := CutDates(s, mk, last);
      DatePass(s, mk, last, v).1 == (if c == [] then v else Some(c[|c| - 1]))
    ensures |DatePass(s, mk, last, v).0| + 13 * |CutDates(s, mk, last)| <= |s|
    decreases |s|, |s| - last, 0
  {
    var date := s[st + 3..st + 13];
    var t := s[..st] + s[en..];
    DatePassStep(s, mk, last, v, st, en);
    CutStep(s, mk, last, st, en);
    DatePassRecordsLastCut(t, mk, 0, Some(date));
    var c := CutDates(t, mk, 0);
    var cs := CutDates(s, mk, last);
    assert cs == [date] + c;
    assert cs != [] && cs[|cs| - 1] == (if c == [] then date else c[|c| - 1]);
    assert DatePass(s, mk, last, v).1 == DatePass(t, mk, 0, Some(date)).1;
  }

  lemma {:induction false} RecordSkip(s: string, mk: char, last: nat, v: Option<string>, st: nat, en: nat)
    requires last <= |s|
    requires FindDate(s, mk, last) == Some((st, en)) && !IsValidISODate(s[st + 3..st + 13])
    ensures var c := CutDates(s, mk, last);
      DatePass(s, mk, last, v).1 == (if c == [] then v else Some(c[|c| - 1]))
    ensures |DatePass(s, mk, last, v).0| + 13 * |CutDates(s, mk, last)| <= |s|
    decreases |s|, |s| - last, 0
  {
    DatePassStep(s, mk, last, v, st, en);
    CutStep(s, mk, last, st, en);
    DatePassRecordsLastCut(s, mk, en, v);
  }

  /** A pass cuts something exactly when a valid match lies at or after
      `last`. */
  lemma CutDatesEmptyIff(s: string, mk: char, last: nat)
    requires IsMarker(mk)
    requires last <= |s|
    ensures CutDates(s, mk, last) == [] <==> forall q: nat :: last <= q ==> !ValidMatchAt(s, mk, q)
  {
    if forall q: nat :: last <= q ==> !ValidMatchAt(s, mk, q) {
      CutsNothing(s, mk, last);
    } else {
      var q: nat :| last <= q && ValidMatchAt(s, mk, q);
      CutsSomething(s, mk, last, q);
    }
  }

  lemma {:induction false} CutsNothing(s: string, mk: char, last: nat)
    requires last <= |s|
    requires forall q: nat :: last <= q ==> !ValidMatchAt(s, mk, q)
    ensures CutDates(s, mk, last) == []
    decreases |s| - last
  {
    var f := FindDate(s, mk, last);
    if f.Some? {
      var st, en := f.value.0, f.value.1;
      assert !ValidMatchAt(s, mk, st);
      CutStep(s, mk, last, st, en);
      CutsNothing(s, mk, en);
    }
  }

  /** Stepping over an invalid match never skips a valid one. */
  lemma {:induction false} CutsSomething(s: string, mk: char, last: nat, q: nat)
    requires IsMarker(mk)
    requires last <= q <= |s| && ValidMatchAt(s, mk, q)
    ensures CutDates(s, mk, last) != []
    decreases |s| - last
  {
    var f := FindDate(s, mk, last);
    var st, en := f.value.0, f.value.1;
    CutStep(s, mk, last, st, en);
    if !IsValidISODate(s[st + 3..st + 13]) {
      InvalidSpan(s, mk, last, st, en);
      CutsSomething(s, mk, en, q);
    }
  }

  /** A text without the marker has no match of its pattern. */
  lemma MarkerAbsent(s: string, mk: char)
    requires mk !in s
    ensures forall q: nat :: q <= |s| ==> DateMatchAt(s, mk, q).None?
  {
    forall q: nat | q <= |s| ensures DateMatchAt(s, mk, q).None? {
      if q + 13 <= |s| {
        assert s[q + 1] in s;
      }
    }
  }

  /** With the marker once in the text, every match starts just before it. */
  lemma MarkerOnce(a: string, mk: char, b: string)
    requires mk !in a && mk !in b
    ensures forall q: nat :: q <= |a + [mk] + b| && DateMatchAt(a + [mk] + b, mk, q).Some? ==> q + 1 == |a|
  {
    var s := a + [mk] + b;
    forall q: nat | q <= |s| && DateMatchAt(s, mk, q).Some? ensures q + 1 == |a| {
      assert s[q + 1] == mk;
    }
  }

  /** A date shape holds digits and dashes only, so no marker occurs in it. */
  lemma MarkerNotInDate(mk: char, d: string)
    requires IsMarker(mk) && DateShaped(d)
    ensures mk !in [' '] + d
  {
    forall k | 0 <= k < |d| ensures d[k] != mk {
      if k != 4 && k != 7 {
        assert IsDigit(d[k]);
      }
    }
  }

  /** A text that ends with its only marker and a date: the one match is the
      marker with the date, and it runs to the end of the text. */
  lemma TrailingDateMatch(w: string, mk: char, d: string)
    requires IsMarker(mk) && mk !in w && DateShaped(d)
    ensures var s := w + [' ', mk, ' '] + d;
      FindDate(s, mk, 0) == Some((|w|, |s|)) && s[|w| + 3..|w| + 13] == d
  {
    var s := w + [' ', mk, ' '] + d;
    MarkerNotInDate(mk, d);
    assert s == (w + [' ']) + [mk] + ([' '] + d);
    MarkerOnce(w + [' '], mk, [' '] + d);
    assert s[|w| + 3..|w| + 13] == d;
    assert DateShapeAt(s, |w| + 3);
    assert DateMatchAt(s, mk, |w|) == Some(|s|);
    var r := FindDate(s, mk, 0);
    assert r.Some?;
    assert r.value.0 == |w|;
  }

  /** ... and a pass over it cuts the marker and a valid date and records it. */
  lemma ValidTrailingDate(w: string, mk: char, d: string, v: Option<string>)
    requires IsMarker(mk) && mk !in w && IsValidISODate(d)
    ensures DatePass(w + [' ', mk, ' '] + d, mk, 0, v) == (w, Some(d))
  {
    var s := w + [' ', mk, ' '] + d;
    TrailingDateMatch(w, mk, d);
    DatePassStep(s, mk, 0, v, |w|, |s|);
    assert s[..|w|] + s[|s|..] == w;
    MarkerAbsent(w, mk);
    DatePassUntouched(w, mk, 0, Some(d));
  }

  /** ... while an impossible date is no valid match, so the pass keeps the
      text and the value it had. */
  lemma InvalidTrailingDate(w: string, mk: char, d: string)
    requires IsMarker(mk) && mk !in w && DateShaped(d) && !IsValidISODate(d)
    ensures forall q: nat :: !ValidMatchAt(w + [' ', mk, ' '] + d, mk, q)
  {
    var s := w + [' ', mk, ' '] + d;
    MarkerNotInDate(mk, d);
    assert s == (w + [' ']) + [mk] + ([' '] + d);
    MarkerOnce(w + [' '], mk, [' '] + d);
    assert s[|w| + 3..|w| + 13] == d;
  }

  /** No valid match begins between `last` and the end of an invalid match. */
  lemma InvalidSpan(s: string, mk: char, last: nat, st: nat, en: nat)
    requires IsMarker(mk)
    requires last <= |s|
    requires FindDate(s, mk, last) == Some((st, en))
    requires !IsValidISODate(s[st + 3..st + 13])
    ensures forall q: nat :: last <= q < en ==> !ValidMatchAt(s, mk, q)
  {
    forall q: nat | last <= q < en ensures !ValidMatchAt(s, mk, q) {
      InvalidBeforeEnd(s, mk, last, st, en, q);
    }
  }

  /** The value the pass for `mk` records on text `s`. */
  function LastCut(s: string, mk: char): (r: Option<string>)
    ensures r.None? || IsValidISODate(r.value)
  {
    var c := CutDates(s, mk, 0);
    if c == [] then None else Some(c[|c| - 1])
  }

  /** No marker is followed by a valid date anywhere in `s`. */
  ghost predicate NoValidDate(s: string) {
    forall m, q: nat :: 0 <= m < |Markers| ==> !ValidMatchAt(s, Markers[m], q)
  }

  /** Pass `i` records the last date it cuts from the text the earlier
      passes left, and markers not yet searched have no value. */
  lemma {:induction false} PassesRecord(text: string, n: nat)
    requires n <= |Markers|
    ensures forall i :: 0 <= i < n ==> Passes(text, n).1[i] == LastCut(Passes(text, i).0, Markers[i])
    ensures forall i :: n <= i < |Markers| ==> Passes(text, n).1[i].None?
  {
    if n > 0 {
      PassesRecord(text, n - 1);
      var prev := Passes(text, n - 1);
      DatePassRecordsLastCut(prev.0, Markers[n - 1], 0, None);
    }
  }

  /** When no marker has a valid date, the passes leave the text alone and
      record nothing. */
  lemma {:induction false} PassesUntouched(text: string, n: nat)
    requires n <= |Markers| && NoValidDate(text)
    ensures Passes(text, n) == (text, [None, None, None, None])
  {
    if n > 0 {
      PassesUntouched(text, n - 1);
      var mk := Markers[n - 1];
      assert forall q: nat :: 0 <= q ==> !ValidMatchAt(text, mk, q);
      DatePassUntouched(text, mk, 0, None);
      var nones: seq<Option<string>> := [None, None, None, None];
      assert nones[n - 1 := None] == nones;
    }
  }

  /** The passes only shrink the text, every value they record is a valid
      calendar date, and it is the last date its pass cut; with no valid
      date anywhere nothing changes. */
  lemma {:induction false} PassesSpec(text: string, n: nat)
    requires n <= |Markers|
    ensures |Passes(text, n).0| <= |text|
    ensures forall i :: 0 <= i < |Markers| ==>
      Passes(text, n).1[i].None? || IsValidISODate(Passes(text, n).1[i].value)
    ensures forall i :: 0 <= i < n ==> Passes(text, n).1[i] == LastCut(Passes(text, i).0, Markers[i])
    ensures forall i :: n <= i < |Markers| ==> Passes(text, n).1[i].None?
    ensures NoValidDate(text) ==> Passes(text, n) == (text, [None, None, None, None])
  {
    PassesRecord(text, n);
    PassesBounded(text, n);
    if NoValidDate(text) {
      PassesUntouched(text, n);
    }
  }

  lemma {:induction false} PassesBounded(text: string, n: nat)
    requires n <= |Markers|
    ensures |Passes(text, n).0| <= |text|
    ensures forall i :: 0 <= i < |Markers| ==>
      Passes(text, n).1[i].None? || IsValidISODate(Passes(text, n).1[i].value)
  {
    if n > 0 {
      PassesBounded(text, n - 1);
      var prev := Passes(text, n - 1);
      DatePassValue(prev.0, Markers[n - 1], 0, None);
    }
  }

  /** Every date reported is the last valid date its pass cut (so a valid
      calendar date), a text with no valid date keeps all its markers and
      reports none, no valid completion date is left in the text before the
      cleanup, and the text is normalised. */
  lemma DatesOfSpec(text: string)
    ensures DatesOf(text).createdDate == LastCut(text, CreatedMarker)
    ensures DatesOf(text).scheduledDate == LastCut(Passes(text, 1).0, ScheduledMarker)
    ensures DatesOf(text).dueDate == LastCut(Passes(text, 2).0, DueMarker)
    ensures DatesOf(text).completedDate == LastCut(Passes(text, 3).0, CompletedMarker)
    ensures NoValidDate(text) ==> DatesOf(text) == DateFields(Squish(text), None, None, None, None)
    ensures forall q: nat :: !ValidMatchAt(Passes(text, |Markers|).0, CompletedMarker, q)
    ensures NoDoubleSpace(DatesOf(text).text)
  {
    PassesSpec(text, |Markers|);
    assert Passes(text, 0).0 == text;
    if NoValidDate(text) {
      PassesUntouched(text, |Markers|);
    }
    MarkersAreMarkers();
    var prev := Passes(text, |Markers| - 1);
    DatePassClean(prev.0, CompletedMarker, 0, None);
  }
}
