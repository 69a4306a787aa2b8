/** Decoding the time of day embedded in a DAS file name
    (`rhone1khz_UTC_YYYYMMDD_HHMMSS.***.h5`, create_cube.py:38-57).

    The source takes the leftmost match of the regular expression `_......\.`
    (an underscore, six characters other than a line feed, a full stop),
    converts its characters 1-2, 3-4 and 5-6 with Python's `int`, builds
    `datetime(2020, month, day, hour, minutes, seconds)` and returns the
    seconds elapsed since midnight of that day.
 */
module Timestamps {
  import opened Outcomes

  const SecondsPerDay := 86400

  /** The regular-expression `.`: any character except a line feed. */
  predicate RegexDot(c: char)
  {
    c != '\n'
  }

  /** The pattern `_......\.` matches `s` at position `p`. */
  predicate MatchAt(s: string, p: nat)
  {
    && p + 8 <= |s|
    && s[p] == '_'
    && s[p + 7] == '.'
    && forall k :: p + 1 <= k < p + 7 ==> RegexDot(s[k])
  }

  /** Leftmost match at or after `p`; `re.findall(...)[0]` is `FindFrom(s, 0)`. */
  function FindFrom(s: string, p: nat): (r: Option<nat>)
    decreases |s| - p
    ensures r.Some? ==> p <= r.value && MatchAt(s, r.value)
    ensures r.Some? ==> forall q :: p <= q < r.value ==> !MatchAt(s, q)
    ensures r.None? ==> forall q :: p <= q ==> !MatchAt(s, q)
  {
    if |s| < p + 8 then None
    else if MatchAt(s, p) then Some(p)
    else FindFrom(s, p + 1)
  }

  predicate IsDigit(c: char)
  {
    '0' <= c <= '9'
  }

  function DigitValue(c: char): (v: nat)
    requires IsDigit(c)
    ensures v < 10
  {
    (c as int) - ('0' as int)
  }

  /** The characters Python's `int` strips around a numeral (ASCII and Latin-1 ones). */
  predicate IsSpace(c: char)
  {
    c == ' ' || 9 <= c as int <= 13 || 28 <= c as int <= 31 || c as int == 0x85 || c as int == 0xA0
  }

  /** Python's `int` applied to the two-character string `[a, b]`:
      two digits, a sign and a digit, or one digit padded by a space. */
  function ParseTwo(a: char, b: char): (r: Option<int>)
    ensures IsDigit(a) && IsDigit(b) ==> r == Some(10 * DigitValue(a) + DigitValue(b))
    ensures r.Some? ==> -9 <= r.value <= 99
    ensures !IsDigit(a) && !IsDigit(b) ==> r.None?
  {
    if IsDigit(a) && IsDigit(b) then Some(10 * DigitValue(a) + DigitValue(b))
    else if a == '+' && IsDigit(b) then Some(DigitValue(b))
    else if a == '-' && IsDigit(b) then Some(-(DigitValue(b) as int))
    else if IsSpace(a) && IsDigit(b) then Some(DigitValue(b))
    else if IsDigit(a) && IsSpace(b) then Some(DigitValue(a))
    else None
  }

  /** Number of days of `month` in the year 2020, a leap year. */
  function DaysIn2020(month: int): nat
    requires 1 <= month <= 12
  {
    if month == 2 then 29
    else if month == 4 || month == 6 || month == 9 || month == 11 then 30
    else 31
  }

  /** `datetime(2020, month, day)` exists. */
  predicate ValidDate(month: int, day: int)
  {
    1 <= month <= 12 && 1 <= day <= DaysIn2020(month)
  }

  /** `datetime(..., hour, minutes, seconds)` accepts these clock fields. */
  predicate ValidClock(hour: int, minutes: int, seconds: int)
  {
    0 <= hour < 24 && 0 <= minutes < 60 && 0 <= seconds < 60
  }

  /** getTimeFromFilename (create_cube.py:38-57). */
  function TimeFromFilename(name: string, day: int, month: int): (r: Result<int>)
    ensures (forall q :: !MatchAt(name, q)) ==> r == Err(IndexError)
    ensures r.Ok? ==> ValidDate(month, day)
    ensures r.Ok? ==> 0 <= r.value < SecondsPerDay
  {
    match FindFrom(name, 0)
    case None => Err(IndexError)
    case Some(p) =>
      var hh := ParseTwo(name[p + 1], name[p + 2]);
      var mm := ParseTwo(name[p + 3], name[p + 4]);
      var ss := ParseTwo(name[p + 5], name[p + 6]);
      if hh.None? || mm.None? || ss.None? then Err(ValueError)
      else if !ValidDate(month, day) then Err(ValueError)
      else if !ValidClock(hh.value, mm.value, ss.value) then Err(ValueError)
      else Ok(3600 * hh.value + 60 * mm.value + ss.value)
  }

  // ---------------------------------------------------------------------------
  // The inverse direction: writing a time of day as the `HHMMSS` name field.

  function DigitChar(d: nat): (c: char)
    requires d < 10
    ensures IsDigit(c) && DigitValue(c) == d
  {
    (('0' as int) + d) as char
  }

  /** The six characters `HHMMSS` naming second `t` of the day. */
  function ClockField(t: nat): (f: string)
    requires t < SecondsPerDay
    ensures |f| == 6
    ensures forall k :: 0 <= k < 6 ==> IsDigit(f[k])
  {
    var h := t / 3600;
    var m := (t % 3600) / 60;
    var s := t % 60;
    [DigitChar(h / 10), DigitChar(h % 10), DigitChar(m / 10), DigitChar(m % 10),
     DigitChar(s / 10), DigitChar(s % 10)]
  }

  /** A file name in the recorder's format: `prefix_HHMMSS.suffix`. */
  function FileName(prefix: string, t: nat, suffix: string): string
    requires t < SecondsPerDay
  {
    prefix + "_" + ClockField(t) + "." + suffix
  }

  /** Leftmost-match uniqueness: a match with no match before it is the one found. */
  lemma FindsLeftmost(s: string, m: nat)
    requires MatchAt(s, m)
    requires forall q :: 0 <= q < m ==> !MatchAt(s, q)
    ensures FindFrom(s, 0) == Some(m)
  {
  }

  /** Round trip: the time written into a well-formed file name is the time read back,
      whatever the date the caller names, as long as the date exists. */
  lemma DecodeFileName(prefix: string, t: nat, suffix: string, day: int, month: int)
    requires t < SecondsPerDay
    requires '.' !in prefix
    requires ValidDate(month, day)
    ensures TimeFromFilename(FileName(prefix, t, suffix), day, month) == Ok(t)
  {
    var name := FileName(prefix, t, suffix);
    var f := ClockField(t);
    var p := |prefix|;
    assert name == prefix + ("_" + f + "." + suffix);
    assert name[p] == '_';
    assert forall k :: 0 <= k < 6 ==> name[p + 1 + k] == f[k];
    assert name[p + 7] == '.';
    assert MatchAt(name, p);
    forall q | 0 <= q < p
      ensures !MatchAt(name, q)
    {
      if q + 7 < p {
        assert name[q + 7] == prefix[q + 7];
      } else if q + 7 == p {
        assert name[q + 7] == '_';
      } else {
        assert name[q + 7] == f[q + 6 - p];
      }
    }
    FindsLeftmost(name, p);
    var h := t / 3600;
    var m := (t % 3600) / 60;
    var s := t % 60;
    assert name[p + 1] == f[0] && name[p + 2] == f[1];
    assert name[p + 3] == f[2] && name[p + 4] == f[3];
    assert name[p + 5] == f[4] && name[p + 6] == f[5];
    assert 3600 * h + 60 * m + s == t;
  }

  /** Only the existence of the date matters, not which date it is. */
  lemma DateDoesNotMatter(name: string, day1: int, month1: int, day2: int, month2: int)
    requires ValidDate(month1, day1) && ValidDate(month2, day2)
    ensures TimeFromFilename(name, day1, month1) == TimeFromFilename(name, day2, month2)
  {
  }

  /** A non-existent date always fails, even for a well-formed name. */
  lemma InvalidDateFails(name: string, day: int, month: int)
    requires !ValidDate(month, day)
    ensures TimeFromFilename(name, day, month).Err?
  {
  }
}
