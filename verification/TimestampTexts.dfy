/**
  What the stored texts say: the calendar against the usual day count, and every text read
  back into the moment it was made from (section 5.6 of RFC 3339).
 */
module TimestampTexts {
  import opened Timestamps

  // ---------- The calendar ----------

  /** Years of 365 days, and a day more for each leap year before. */
  function DaysBeforeYear(year: nat): int {
    365 * year + (year + 3) / 4 - (year + 99) / 100 + (year + 399) / 400
  }

  function DaysBeforeMonth(month: nat): int {
    match month
    case 1 => 0
    case 2 => 31
    case 3 => 59
    case 4 => 90
    case 5 => 120
    case 6 => 151
    case 7 => 181
    case 8 => 212
    case 9 => 243
    case 10 => 273
    case 11 => 304
    case _ => 334
  }

  /** The number of days from 0000-01-01 to a date. */
  function DayNumber(d: Date): int {
    DaysBeforeYear(d.year) + DaysBeforeMonth(d.month) + d.day - 1
    + if d.month > 2 && d.year % 4 == 0 && (d.year % 100 != 0 || d.year % 400 == 0) then 1 else 0
  }

  lemma YearLength(year: nat)
    ensures DaysBeforeYear(year + 1) == DaysBeforeYear(year) + if Leap(year) then 366 else 365
  {
    Fourth(year);
    Hundredth(year);
    FourHundredth(year);
    Centuries(year);
    LeapDays(year, (year + 3) / 4, (year + 99) / 100, (year + 399) / 400);
  }

  lemma Centuries(n: nat)
    ensures n % 400 == 0 ==> n % 100 == 0
    ensures n % 100 == 0 ==> n % 4 == 0
  {
    if n % 400 == 0 {
      assert n == 400 * (n / 400);
      Hundreds(4 * (n / 400));
    }
    if n % 100 == 0 {
      assert n == 100 * (n / 100);
      Fours(25 * (n / 100));
    }
  }

  lemma Hundreds(k: nat)
    ensures (100 * k) % 100 == 0
  {
  }

  lemma Fours(k: nat)
    ensures (4 * k) % 4 == 0
  {
  }

  lemma LeapDays(year: nat, a: int, b: int, c: int)
    requires a == (year + 3) / 4 && b == (year + 99) / 100 && c == (year + 399) / 400
    requires (year % 400 == 0 ==> year % 100 == 0) && (year % 100 == 0 ==> year % 4 == 0)
    ensures (a + if year % 4 == 0 then 1 else 0) - (b + if year % 100 == 0 then 1 else 0)
          + (c + if year % 400 == 0 then 1 else 0)
         == a - b + c + if Leap(year) then 1 else 0
  {
  }

  lemma Fourth(n: nat)
    ensures (n + 1 + 3) / 4 == (n + 3) / 4 + if n % 4 == 0 then 1 else 0
  {
  }

  lemma Hundredth(n: nat)
    ensures (n + 1 + 99) / 100 == (n + 99) / 100 + if n % 100 == 0 then 1 else 0
  {
  }

  lemma FourHundredth(n: nat)
    ensures (n + 1 + 399) / 400 == (n + 399) / 400 + if n % 400 == 0 then 1 else 0
  {
  }

  lemma NextDayNumber(d: Date)
    requires ValidDate(d)
    ensures DayNumber(NextDate(d)) == DayNumber(d) + 1
  {
    YearLength(d.year);
  }

  /** The n-th date is the one with n days before it. */
  lemma {:induction false} DateHasNumber(n: nat)
    ensures DayNumber(DateOf(n)) == n
  {
    if n > 0 {
      DateHasNumber(n - 1);
      NextDayNumber(DateOf(n - 1));
    }
  }

  // ---------- Reading numbers ----------

  predicate Digits(text: string) {
    forall i | 0 <= i < |text| :: '0' <= text[i] <= '9'
  }

  /** A decimal text as a number. */
  function Value(text: string): int {
    if text == "" then 0 else Value(text[..|text| - 1]) * 10 + (text[|text| - 1] as int - '0' as int)
  }

  lemma {:induction false} PaddedReads(n: nat, w: nat)
    requires n < Power10(w)
    ensures Digits(Padded(n, w)) && Value(Padded(n, w)) == n
  {
    if w > 0 {
      var front := Padded(n / 10, w - 1);
      PaddedReads(n / 10, w - 1);
      assert Padded(n, w)[..w - 1] == front;
    }
  }

  lemma {:induction false} TrimReads(digits: string)
    requires Digits(digits)
    ensures Trim(digits) <= digits && Value(Trim(digits)) * Power10(|digits| - |Trim(digits)|) == Value(digits)
    ensures Trim(digits) == "" || Trim(digits)[|Trim(digits)| - 1] != '0'
  {
    if digits != "" && digits[|digits| - 1] == '0' {
      var front := digits[..|digits| - 1];
      TrimReads(front);
      TenMore(Value(Trim(front)), Power10(|front| - |Trim(front)|));
    }
  }

  lemma TenMore(a: int, p: int)
    ensures a * (10 * p) == a * p * 10
  {
  }

  // ---------- Reading texts ----------

  /** A point and up to nine digits that do not end in zero, which say the nanoseconds. */
  predicate FractionSays(tail: string, digits: string, nano: nat) {
    && tail == "." + digits + "Z" && 1 <= |digits| <= 9 && Digits(digits) && digits[|digits| - 1] != '0'
    && Value(digits) * Power10(9 - |digits|) == nano
  }

  ghost predicate TailSays(tail: string, nano: nat) {
    if nano == 0 then tail == "Z" else exists digits :: FractionSays(tail, digits, nano)
  }

  lemma NineDigits(nano: nat)
    requires 0 < nano < 1_000_000_000
    ensures var digits := Trim(Padded(nano, 9));
      && digits != "" && |digits| <= 9 && Digits(digits) && digits[|digits| - 1] != '0'
      && Value(digits) * Power10(9 - |digits|) == nano
  {
    assert Power10(9) == 1_000_000_000 by { assert Power10(3) == 1000; assert Power10(6) == 1_000_000; }
    PaddedReads(nano, 9);
    TrimReads(Padded(nano, 9));
    assert Value("") == 0;
  }

  lemma TailReads(nano: nat)
    requires nano < 1_000_000_000
    ensures TailSays(Tail(nano), nano)
  {
    if nano > 0 {
      NineDigits(nano);
      assert FractionSays(Tail(nano), Trim(Padded(nano, 9)), nano);
    }
  }

  /** The text of a date and time of day, its numbers in fixed places. */
  predicate SecondsSay(text: string, year: int, month: int, day: int, hour: int, minute: int, second: int) {
    && |text| >= 19
    && text[4] == '-' && text[7] == '-' && text[10] == 'T' && text[13] == ':' && text[16] == ':'
    && Value(text[..4]) == year && Value(text[5..7]) == month && Value(text[8..10]) == day
    && Value(text[11..13]) == hour && Value(text[14..16]) == minute && Value(text[17..19]) == second
  }

  lemma TwoDigits(n: nat)
    requires n < 100
    ensures Value(Padded(n, 2)) == n
  {
    assert Power10(2) == 100 by { assert Power10(1) == 10; }
    PaddedReads(n, 2);
  }

  lemma FourDigits(n: nat)
    requires n < 10000
    ensures Value(Padded(n, 4)) == n
  {
    assert Power10(4) == 10000 by { assert Power10(2) == 100; }
    PaddedReads(n, 4);
  }

  /** The text of whole seconds, laid out. */
  lemma LaidOut(sec: nat, rest: string)
    ensures var date, s := DateOf(sec / 86400), sec % 86400;
      Text(WholeSecond(sec), rest) ==
        Padded(date.year, 4) + ("-" + (Padded(date.month, 2) + ("-" + (Padded(date.day, 2) + ("T" +
        (Padded(s / 3600, 2) + (":" + (Padded(s / 60 % 60, 2) + (":" + (Padded(s % 60, 2) + ("" + rest)))))))))))
  {
    var f := WholeSecond(sec);
    TextFrom(f, 0, rest);
    TextFrom(f, 1, rest);
    TextFrom(f, 2, rest);
    TextFrom(f, 3, rest);
    TextFrom(f, 4, rest);
    TextFrom(f, 5, rest);
    assert f[6..] == [] && f[0..] == f;
  }

  lemma TextFrom(f: seq<Field>, i: nat, rest: string)
    requires i < |f|
    ensures Text(f[i..], rest) == Padded(f[i].value, f[i].width) + (f[i].sep + Text(f[i + 1..], rest))
  {
    assert f[i..][1..] == f[i + 1..];
  }

  /** A field of a text, the separator after it and the rest. */
  lemma OneField(field: string, sep: string, rest: string)
    requires |sep| == 1
    ensures var text := field + (sep + rest);
      text[..|field|] == field && text[|field|] == sep[0] && text[|field| + 1..] == rest
  {
  }

  lemma Placed(y: string, mo: string, d: string, h: string, mi: string, s: string, rest: string)
    requires |y| == 4 && |mo| == |d| == |h| == |mi| == |s| == 2
    ensures var text := y + ("-" + (mo + ("-" + (d + ("T" + (h + (":" + (mi + (":" + (s + ("" + rest)))))))))));
      && |text| == 19 + |rest|
      && text[4] == '-' && text[7] == '-' && text[10] == 'T' && text[13] == ':' && text[16] == ':'
      && text[..4] == y && text[5..7] == mo && text[8..10] == d
      && text[11..13] == h && text[14..16] == mi && text[17..19] == s && text[19..] == rest
  {
    var fromSecond := s + ("" + rest);
    var fromMinute := mi + (":" + fromSecond);
    var fromHour := h + (":" + fromMinute);
    var fromDay := d + ("T" + fromHour);
    var fromMonth := mo + ("-" + fromDay);
    var text := y + ("-" + fromMonth);
    OneField(y, "-", fromMonth);
    OneField(mo, "-", fromDay);
    OneField(d, "T", fromHour);
    OneField(h, ":", fromMinute);
    OneField(mi, ":", fromSecond);
    assert fromSecond[..2] == s && fromSecond[2..] == rest;
    assert text[5..] == fromMonth && text[8..] == fromDay && text[11..] == fromHour;
    assert text[14..] == fromMinute && text[17..] == fromSecond;
    assert text[5..7] == fromMonth[..2] && text[8..10] == fromDay[..2] && text[11..13] == fromHour[..2];
    assert text[14..16] == fromMinute[..2] && text[17..19] == fromSecond[..2] && text[19..] == fromSecond[2..];
  }

  lemma NumbersFit(sec: nat)
    requires Representable(sec)
    ensures var date, s := DateOf(sec / 86400), sec % 86400;
      && Value(Padded(date.year, 4)) == date.year && Value(Padded(date.month, 2)) == date.month
      && Value(Padded(date.day, 2)) == date.day && Value(Padded(s / 3600, 2)) == s / 3600
      && Value(Padded(s / 60 % 60, 2)) == s / 60 % 60 && Value(Padded(s % 60, 2)) == s % 60
  {
    var date, s := DateOf(sec / 86400), sec % 86400;
    FourDigits(date.year);
    TwoDigits(date.month);
    TwoDigits(date.day);
    TwoDigits(s / 3600);
    TwoDigits(s / 60 % 60);
    TwoDigits(s % 60);
  }

  lemma PlacesSay(t: Stamp)
    requires Representable(t.sec)
    ensures var date, s := DateOf(t.sec / 86400), t.sec % 86400;
      && SecondsSay(Format(t), date.year, date.month, date.day, s / 3600, s / 60 % 60, s % 60)
      && Format(t)[19..] == Tail(t.nano)
  {
    var date, s := DateOf(t.sec / 86400), t.sec % 86400;
    LaidOut(t.sec, Tail(t.nano));
    Placed(Padded(date.year, 4), Padded(date.month, 2), Padded(date.day, 2), Padded(s / 3600, 2),
           Padded(s / 60 % 60, 2), Padded(s % 60, 2), Tail(t.nano));
    NumbersFit(t.sec);
  }

  /** A date of the calendar with so many days before it, and a time of day with so many seconds. */
  predicate SaysMoment(sec: nat, year: int, month: int, day: int, hour: int, minute: int, second: int) {
    && 0 <= year && 1 <= month <= 12 && 1 <= day <= 31 && DayNumber(Date(year, month, day)) == sec / 86400
    && 0 <= hour < 24 && 0 <= minute < 60 && 0 <= second < 60 && hour * 3600 + minute * 60 + second == sec % 86400
  }

  /** The numbers in their places, read as a moment, and the fraction after them. */
  ghost predicate Says(text: string, t: Stamp) {
    && |text| >= 19
    && text[4] == '-' && text[7] == '-' && text[10] == 'T' && text[13] == ':' && text[16] == ':'
    && SaysMoment(t.sec, Value(text[..4]), Value(text[5..7]), Value(text[8..10]),
                  Value(text[11..13]), Value(text[14..16]), Value(text[17..19]))
    && TailSays(text[19..], t.nano)
  }

  lemma MomentOf(sec: nat)
    ensures var date, s := DateOf(sec / 86400), sec % 86400;
      SaysMoment(sec, date.year, date.month, date.day, s / 3600, s / 60 % 60, s % 60)
  {
    DateHasNumber(sec / 86400);
    ClockOf(sec % 86400);
  }

  lemma ClockOf(s: nat)
    requires s < 86400
    ensures s / 3600 < 24 && s / 60 % 60 < 60 && s % 60 < 60 && s / 3600 * 3600 + s / 60 % 60 * 60 + s % 60 == s
  {
  }

  /**
    A text says what it was made from: the date in it has as many days before it as the moment,
    its time of day as many seconds, and its fraction the nanoseconds.
   */
  lemma TextSays(t: Stamp)
    requires Representable(t.sec)
    ensures Says(Format(t), t)
  {
    MomentOf(t.sec);
    PlacesSay(t);
    TailReads(t.nano);
  }
}
