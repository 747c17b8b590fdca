/** Dump versions: which texts order an extraction, and why text order is calendar order. */
module Versions {
  import opened Wrappers

  datatype Date = Date(year: nat, month: nat, day: nat)

  datatype VersionError = NotEightDigits | NotACalendarDate

  /** A latch key, sorted by what the reconciliation can do with it. */
  datatype Key = Dump(day: nat) | BadDate(digits: string) | Fallback(text: string)

  predicate IsSpace(c: char) {
    c == ' ' || c == '\t' || c == '\n' || c == '\r'
  }

  function TrimLeft(s: string): string {
    if s != [] && IsSpace(s[0]) then TrimLeft(s[1..]) else s
  }

  function TrimRight(s: string): string {
    if s != [] && IsSpace(s[|s| - 1]) then TrimRight(s[..|s| - 1]) else s
  }

  function Trim(s: string): string {
    TrimRight(TrimLeft(s))
  }

  predicate IsDigit(c: char) {
    '0' <= c <= '9'
  }

  predicate EightDigits(s: string) {
    |s| == 8 && forall i :: 0 <= i < |s| ==> IsDigit(s[i])
  }

  function DigitAt(s: string, i: nat): (d: nat)
    requires EightDigits(s) && i < 8
    ensures d <= 9
  {
    (s[i] - '0') as nat
  }

  function DateOf(s: string): (d: Date)
    requires EightDigits(s)
    ensures d.month < 100 && d.day < 100
  {
    Date(
      1000 * DigitAt(s, 0) + 100 * DigitAt(s, 1) + 10 * DigitAt(s, 2) + DigitAt(s, 3),
      10 * DigitAt(s, 4) + DigitAt(s, 5),
      10 * DigitAt(s, 6) + DigitAt(s, 7))
  }

  predicate IsLeap(year: nat) {
    year % 4 == 0 && (year % 100 != 0 || year % 400 == 0)
  }

  function DaysInMonth(year: nat, month: nat): nat {
    if month == 2 then (if IsLeap(year) then 29 else 28)
    else if month in {4, 6, 9, 11} then 30
    else 31
  }

  predicate IsCalendarDate(d: Date) {
    1 <= d.year <= 9999 && 1 <= d.month <= 12 && 1 <= d.day <= DaysInMonth(d.year, d.month)
  }

  /** `YYYYMMDD` read as one number: the order the protocol compares versions by. */
  function DayNumber(d: Date): nat {
    10000 * d.year + 100 * d.month + d.day
  }

  function OrderedVersion(text: string): Result<string, VersionError> {
    var version := Trim(text);
    if !EightDigits(version) then Err(NotEightDigits)
    else if !IsCalendarDate(DateOf(version)) then Err(NotACalendarDate)
    else Ok(version)
  }

  function ClassifyKey(key: string): Key {
    if !EightDigits(key) then Fallback(key)
    else if IsCalendarDate(DateOf(key)) then Dump(DayNumber(DateOf(key)))
    else BadDate(key)
  }

  /** The comparison the loader makes on version texts: character by character. */
  predicate TextLess(a: string, b: string) {
    if b == [] then false
    else if a == [] then true
    else if a[0] != b[0] then a[0] < b[0]
    else TextLess(a[1..], b[1..])
  }

  ghost predicate Earlier(a: Date, b: Date) {
    a.year < b.year
    || (a.year == b.year && a.month < b.month)
    || (a.year == b.year && a.month == b.month && a.day < b.day)
  }

  lemma DayNumberIsCalendarOrder(a: Date, b: Date)
    requires IsCalendarDate(a) && IsCalendarDate(b)
    ensures Earlier(a, b) <==> DayNumber(a) < DayNumber(b)
    ensures a == b <==> DayNumber(a) == DayNumber(b)
  {
    assert a.month <= 12 && a.day <= 31 && b.month <= 12 && b.day <= 31;
  }

  /** Comparing two texts of one length is deciding at the first place they differ. */
  lemma {:induction false} TextLessAtFirstDifference(a: string, b: string, i: nat)
    requires |a| == |b| && i <= |a| && a[..i] == b[..i]
    ensures i == |a| ==> !TextLess(a, b) && a == b
    ensures i < |a| && a[i] != b[i] ==> (TextLess(a, b) <==> a[i] < b[i])
  {
    if i == 0 || a == [] {
    } else {
      assert a[0] == a[..i][0] == b[..i][0] == b[0];
      assert a[1..][..i - 1] == a[..i][1..] == b[..i][1..] == b[1..][..i - 1];
      TextLessAtFirstDifference(a[1..], b[1..], i - 1);
      if i == |a| {
        assert a == [a[0]] + a[1..] && b == [b[0]] + b[1..];
      }
    }
  }

  /**
    The durable path compares version texts; for the versions it accepts that is the order of
    the dump dates, and equal dates are one key.
   */
  lemma {:induction false} TextOrderIsCalendarOrder(a: string, b: string)
    requires EightDigits(a) && EightDigits(b)
    requires IsCalendarDate(DateOf(a)) && IsCalendarDate(DateOf(b))
    ensures TextLess(a, b) <==> Earlier(DateOf(a), DateOf(b))
    ensures TextLess(a, b) <==> ClassifyKey(a).day < ClassifyKey(b).day
    ensures ClassifyKey(a) == ClassifyKey(b) <==> a == b
  {
    DayNumberIsCalendarOrder(DateOf(a), DateOf(b));
    var i := FirstDifference(a, b);
    TextLessAtFirstDifference(a, b, i);
    if i < 8 {
      DigitsDecide(a, b, i);
    }
  }

  lemma FirstDifference(a: string, b: string) returns (i: nat)
    requires EightDigits(a) && EightDigits(b)
    ensures i <= 8 && a[..i] == b[..i] && (forall k :: 0 <= k < i ==> a[k] == b[k]) && (i < 8 ==> a[i] != b[i])
  {
    i := 0;
    while i < 8 && a[i] == b[i]
      invariant i <= 8 && (forall k :: 0 <= k < i ==> a[k] == b[k])
    {
      i := i + 1;
    }
  }

  lemma DigitsDecide(a: string, b: string, i: nat)
    requires EightDigits(a) && EightDigits(b) && i < 8 && a[i] != b[i]
    requires forall k :: 0 <= k < i ==> a[k] == b[k]
    ensures a[i] < b[i] <==> DayNumber(DateOf(a)) < DayNumber(DateOf(b))
    ensures DayNumber(DateOf(a)) != DayNumber(DateOf(b))
  {
    forall k | 0 <= k < i ensures DigitAt(a, k) == DigitAt(b, k) {
    }
    assert DigitAt(a, i) != DigitAt(b, i);
    assert a[i] < b[i] <==> DigitAt(a, i) < DigitAt(b, i);
    if {
      case i == 0 =>
      case i == 1 =>
      case i == 2 =>
      case i == 3 =>
      case i == 4 =>
      case i == 5 =>
      case i == 6 =>
      case i == 7 =>
    }
  }

  // ---- which texts order an extraction ----------------------------------------------------

  /** Stripping takes the blanks off both ends and nothing else. */
  lemma TrimIsTheCore(text: string) returns (before: string, after: string)
    ensures text == before + Trim(text) + after
    ensures forall c :: c in before || c in after ==> c == ' ' || c == '\t' || c == '\n' || c == '\r'
    ensures Trim(text) != [] ==>
              && Trim(text)[0] !in {' ', '\t', '\n', '\r'}
              && Trim(text)[|Trim(text)| - 1] !in {' ', '\t', '\n', '\r'}
  {
    before := LeftBlanks(text);
    after := RightBlanks(TrimLeft(text));
    TrimRightKeepsHead(TrimLeft(text));
  }

  lemma {:induction false} LeftBlanks(s: string) returns (blanks: string)
    ensures s == blanks + TrimLeft(s)
    ensures forall c :: c in blanks ==> c == ' ' || c == '\t' || c == '\n' || c == '\r'
    ensures TrimLeft(s) != [] ==> TrimLeft(s)[0] !in {' ', '\t', '\n', '\r'}
  {
    if s != [] && IsSpace(s[0]) {
      var rest := LeftBlanks(s[1..]);
      blanks := [s[0]] + rest;
      assert s == [s[0]] + s[1..];
    } else {
      blanks := [];
    }
  }

  lemma {:induction false} RightBlanks(s: string) returns (blanks: string)
    ensures s == TrimRight(s) + blanks
    ensures forall c :: c in blanks ==> c == ' ' || c == '\t' || c == '\n' || c == '\r'
    ensures TrimRight(s) != [] ==> TrimRight(s)[|TrimRight(s)| - 1] !in {' ', '\t', '\n', '\r'}
  {
    if s != [] && IsSpace(s[|s| - 1]) {
      var rest := RightBlanks(s[..|s| - 1]);
      blanks := rest + [s[|s| - 1]];
      assert s == s[..|s| - 1] + [s[|s| - 1]];
    } else {
      blanks := [];
    }
  }

  lemma {:induction false} TrimRightKeepsHead(s: string)
    ensures TrimRight(s) != [] ==> s != [] && TrimRight(s)[0] == s[0]
  {
    if s != [] && IsSpace(s[|s| - 1]) {
      TrimRightKeepsHead(s[..|s| - 1]);
    }
  }

  /**
    A version is accepted exactly when it is eight digits naming a day that exists: year 1 to
    9999, twelve months of 31 days but for April, June, September and November with 30 and
    February with 28, or 29 in years divisible by four and not by a hundred unless by four hundred.
   */
  lemma AcceptedVersions(text: string, year: int, month: int, day: int)
    requires |Trim(text)| == 8 && forall i :: 0 <= i < 8 ==> '0' <= Trim(text)[i] <= '9'
    requires var t := Trim(text);
             && year == 1000 * (t[0] as int - 48) + 100 * (t[1] as int - 48) + 10 * (t[2] as int - 48) + (t[3] as int - 48)
             && month == 10 * (t[4] as int - 48) + (t[5] as int - 48)
             && day == 10 * (t[6] as int - 48) + (t[7] as int - 48)
    ensures OrderedVersion(text).Ok? <==>
              && year >= 1 && 1 <= month <= 12 && 1 <= day <= 31
              && (month == 4 || month == 6 || month == 9 || month == 11 ==> day <= 30)
              && (month == 2 ==> day <= 29)
              && (month == 2 && day == 29 ==> year % 4 == 0 && (year % 100 != 0 || year % 400 == 0))
    ensures OrderedVersion(text).Ok? ==> OrderedVersion(text).value == Trim(text)
    ensures OrderedVersion(text).Ok? ==> ClassifyKey(Trim(text)) == Dump(10000 * year + 100 * month + day)
    ensures OrderedVersion(text).Err? ==> ClassifyKey(Trim(text)) == BadDate(Trim(text))
  {
    var d := DateOf(Trim(text));
    assert d.year == year && d.month == month && d.day == day;
  }

  /** Anything but eight digits is refused, and as a latch key cannot be placed. */
  lemma OtherTextsAreRefused(text: string)
    requires |Trim(text)| != 8 || exists i :: 0 <= i < |Trim(text)| && !('0' <= Trim(text)[i] <= '9')
    ensures OrderedVersion(text).Err? && ClassifyKey(Trim(text)) == Fallback(Trim(text))
  {
  }
}
