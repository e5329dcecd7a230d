/**
  UTC times as the hub stores them: RFC 3339 text with the fraction's trailing zeros cut
  off, compared byte by byte by the database.  The order of the texts is worked out here.
 */
module Timestamps {
  /** Whole seconds since the start of year 0, and a fraction in nanoseconds. */
  datatype RawStamp = RawStamp(sec: nat, nano: nat)

  type Stamp = t: RawStamp | t.nano < 1_000_000_000 witness RawStamp(0, 0)

  // ---------- Calendar ----------

  datatype Date = Date(year: nat, month: nat, day: nat)

  predicate Leap(year: nat) {
    year % 4 == 0 && (year % 100 != 0 || year % 400 == 0)
  }

  function MonthLength(year: nat, month: nat): nat {
    if month == 2 then (if Leap(year) then 29 else 28)
    else if month == 4 || month == 6 || month == 9 || month == 11 then 30
    else 31
  }

  predicate ValidDate(d: Date) {
    1 <= d.month <= 12 && 1 <= d.day <= MonthLength(d.year, d.month)
  }

  function NextDate(d: Date): Date {
    if d.day < MonthLength(d.year, d.month) then d.(day := d.day + 1)
    else if d.month < 12 then Date(d.year, d.month + 1, 1)
    else Date(d.year + 1, 1, 1)
  }

  /** The n-th day after 0000-01-01. */
  function DateOf(n: nat): (d: Date)
    ensures ValidDate(d)
  {
    if n == 0 then Date(0, 1, 1) else NextDate(DateOf(n - 1))
  }

  predicate EarlierDate(a: Date, b: Date) {
    a.year < b.year || (a.year == b.year && (a.month < b.month || (a.month == b.month && a.day < b.day)))
  }

  lemma {:induction false} DatesAdvance(m: nat, n: nat)
    requires m < n
    ensures EarlierDate(DateOf(m), DateOf(n))
  {
    if m + 1 < n {
      DatesAdvance(m, n - 1);
    }
  }

  // ---------- Text ----------

  /** Byte-wise comparison, as the database's default collation does it. */
  predicate TextLess(a: string, b: string) {
    b != [] && (a == [] || a[0] < b[0] || (a[0] == b[0] && TextLess(a[1..], b[1..])))
  }

  lemma {:induction false} TextTransitive(a: string, b: string, c: string)
    ensures TextLess(a, b) && TextLess(b, c) ==> TextLess(a, c)
    ensures TextLess(a, b) ==> !TextLess(b, a)
    ensures TextLess(a, b) && !TextLess(c, b) ==> TextLess(a, c)
  {
    if a != [] && b != [] && c != [] {
      TextTransitive(a[1..], b[1..], c[1..]);
    } else if a != [] && b != [] {
      TextTransitive(a[1..], b[1..], []);
    }
  }

  function Power10(w: nat): nat {
    if w == 0 then 1 else 10 * Power10(w - 1)
  }

  function Digit(d: nat): char
    requires d < 10
  {
    '0' + d as char
  }

  /** n in decimal, padded with zeros to w digits; more leading digits would not fit and are cut off. */
  function Padded(n: nat, w: nat): (text: string)
    ensures |text| == w
  {
    if w == 0 then "" else Padded(n / 10, w - 1) + [Digit(n % 10)]
  }

  datatype Field = Field(value: nat, width: nat, sep: string)

  function Text(fields: seq<Field>, tail: string): string {
    if fields == [] then tail
    else Padded(fields[0].value, fields[0].width) + (fields[0].sep + Text(fields[1..], tail))
  }

  function WholeSecond(sec: nat): seq<Field> {
    var date := DateOf(sec / 86400);
    var s := sec % 86400;
    [Field(date.year, 4, "-"), Field(date.month, 2, "-"), Field(date.day, 2, "T"),
     Field(s / 3600, 2, ":"), Field(s / 60 % 60, 2, ":"), Field(s % 60, 2, "")]
  }

  function Trim(digits: string): string {
    if digits != [] && digits[|digits| - 1] == '0' then Trim(digits[..|digits| - 1]) else digits
  }

  /** The fraction and the zone: the part of the text after the whole seconds. */
  function Tail(nano: nat): string {
    if nano == 0 then "Z" else "." + Trim(Padded(nano, 9)) + "Z"
  }

  /** Layout "2006-01-02T15:04:05.999999999Z07:00" in UTC. */
  function Format(t: Stamp): string {
    Text(WholeSecond(t.sec), Tail(t.nano))
  }

  /** Years that fit in four digits. */
  predicate Representable(sec: nat) {
    DateOf(sec / 86400).year < 10000
  }

  // ---------- Order of texts ----------

  /** The database's order on times, read off the numbers. */
  predicate Before(a: Stamp, b: Stamp) {
    a.sec < b.sec || (a.sec == b.sec && TextLess(Tail(a.nano), Tail(b.nano)))
  }

  lemma {:induction false} CommonPrefix(p: string, x: string, y: string)
    ensures TextLess(p + x, p + y) <==> TextLess(x, y)
  {
    if p == [] {
      assert p + x == x && p + y == y;
    } else {
      assert (p + x)[1..] == p[1..] + x && (p + y)[1..] == p[1..] + y;
      CommonPrefix(p[1..], x, y);
    }
  }

  lemma {:induction false} DifferentPrefix(p: string, q: string, x: string, y: string)
    requires |p| == |q| && TextLess(p, q)
    ensures TextLess(p + x, q + y) && !TextLess(q + y, p + x)
  {
    assert (p + x)[0] == p[0] && (q + y)[0] == q[0];
    if p[0] == q[0] {
      assert (p + x)[1..] == p[1..] + x && (q + y)[1..] == q[1..] + y;
      DifferentPrefix(p[1..], q[1..], x, y);
    }
  }

  lemma {:induction false} PaddedInOrder(m: nat, n: nat, w: nat)
    requires m < n < Power10(w)
    ensures TextLess(Padded(m, w), Padded(n, w))
  {
    if w > 0 {
      var p, q := Padded(m / 10, w - 1), Padded(n / 10, w - 1);
      if m / 10 == n / 10 {
        CommonPrefix(p, [Digit(m % 10)], [Digit(n % 10)]);
      } else {
        PaddedInOrder(m / 10, n / 10, w - 1);
        DifferentPrefix(p, q, [Digit(m % 10)], [Digit(n % 10)]);
      }
    }
  }

  predicate Fits(f: seq<Field>) {
    forall i | 0 <= i < |f| :: f[i].value < Power10(f[i].width)
  }

  predicate SameLayout(f: seq<Field>, g: seq<Field>) {
    |f| == |g| && forall i | 0 <= i < |f| :: f[i].width == g[i].width && f[i].sep == g[i].sep
  }

  predicate FieldsLess(f: seq<Field>, g: seq<Field>)
    requires |f| == |g|
  {
    f != [] && (f[0].value < g[0].value || (f[0].value == g[0].value && FieldsLess(f[1..], g[1..])))
  }

  lemma {:induction false} TextsFollowFields(f: seq<Field>, g: seq<Field>, x: string, y: string)
    requires SameLayout(f, g) && Fits(f) && Fits(g) && FieldsLess(f, g)
    ensures TextLess(Text(f, x), Text(g, y)) && !TextLess(Text(g, y), Text(f, x))
  {
    var fx, gy := f[0].sep + Text(f[1..], x), g[0].sep + Text(g[1..], y);
    var p, q := Padded(f[0].value, f[0].width), Padded(g[0].value, g[0].width);
    if f[0].value < g[0].value {
      PaddedInOrder(f[0].value, g[0].value, f[0].width);
      DifferentPrefix(p, q, fx, gy);
    } else {
      TextsFollowFields(f[1..], g[1..], x, y);
      CommonPrefix(p, fx, gy);
      CommonPrefix(p, gy, fx);
      CommonPrefix(f[0].sep, Text(f[1..], x), Text(g[1..], y));
      CommonPrefix(f[0].sep, Text(g[1..], y), Text(f[1..], x));
    }
  }

  lemma {:induction false} TextsFollowTails(f: seq<Field>, x: string, y: string)
    ensures TextLess(Text(f, x), Text(f, y)) <==> TextLess(x, y)
  {
    if f != [] {
      TextsFollowTails(f[1..], x, y);
      CommonPrefix(Padded(f[0].value, f[0].width), f[0].sep + Text(f[1..], x), f[0].sep + Text(f[1..], y));
      CommonPrefix(f[0].sep, Text(f[1..], x), Text(f[1..], y));
    }
  }

  lemma WholeSecondFits(sec: nat)
    requires Representable(sec)
    ensures Fits(WholeSecond(sec))
  {
  }

  /** The first field that differs decides. */
  lemma {:induction false} DecidingField(f: seq<Field>, g: seq<Field>, i: nat)
    requires |f| == |g| && i < |f| && f[i].value < g[i].value
    requires forall j | 0 <= j < i :: f[j].value == g[j].value
    ensures FieldsLess(f, g)
  {
    if i > 0 {
      DecidingField(f[1..], g[1..], i - 1);
    }
  }

  lemma SecondsFollowFields(m: nat, n: nat)
    requires m < n
    ensures SameLayout(WholeSecond(m), WholeSecond(n)) && FieldsLess(WholeSecond(m), WholeSecond(n))
  {
    var f, g := WholeSecond(m), WholeSecond(n);
    if m / 86400 < n / 86400 {
      DatesAdvance(m / 86400, n / 86400);
      DecidingField(f, g, if f[0].value < g[0].value then 0 else if f[1].value < g[1].value then 1 else 2);
    } else {
      TimeOfDay(m % 86400, n % 86400);
      DecidingField(f, g, if f[3].value < g[3].value then 3 else if f[4].value < g[4].value then 4 else 5);
    }
  }

  lemma TimeOfDay(s: nat, t: nat)
    requires s < t < 86400
    ensures s / 3600 < t / 3600
         || (s / 3600 == t / 3600 && (s / 60 % 60 < t / 60 % 60 || (s / 60 % 60 == t / 60 % 60 && s % 60 < t % 60)))
  {
  }

  /** The order of the stored texts is exactly `Before`; across different seconds it is the order of time. */
  lemma TextOrder(a: Stamp, b: Stamp)
    requires Representable(a.sec) && Representable(b.sec)
    ensures TextLess(Format(a), Format(b)) <==> Before(a, b)
    ensures a.sec != b.sec ==> (TextLess(Format(a), Format(b)) <==> a.sec < b.sec)
  {
    WholeSecondFits(a.sec);
    WholeSecondFits(b.sec);
    var x, y := Tail(a.nano), Tail(b.nano);
    if a.sec < b.sec {
      SecondsFollowFields(a.sec, b.sec);
      TextsFollowFields(WholeSecond(a.sec), WholeSecond(b.sec), x, y);
    } else if b.sec < a.sec {
      SecondsFollowFields(b.sec, a.sec);
      TextsFollowFields(WholeSecond(b.sec), WholeSecond(a.sec), y, x);
    } else {
      TextsFollowTails(WholeSecond(a.sec), x, y);
    }
  }

  // ---------- No two times share a text ----------

  lemma {:induction false} Irreflexive(a: string)
    ensures !TextLess(a, a)
  {
    if a != [] {
      Irreflexive(a[1..]);
    }
  }

  lemma {:induction false} Connected(a: string, b: string)
    requires a != b
    ensures TextLess(a, b) || TextLess(b, a)
  {
    if a != [] && b != [] && a[0] == b[0] {
      assert a == [a[0]] + a[1..] && b == [b[0]] + b[1..];
      Connected(a[1..], b[1..]);
    }
  }

  lemma {:induction false} TrimOnlyZeros(a: string, b: string)
    requires |a| == |b| && Trim(a) == Trim(b)
    ensures a == b
  {
    if a != [] {
      var n := |a| - 1;
      TrimShortens(a);
      TrimShortens(b);
      TrimShortens(a[..n]);
      TrimShortens(b[..n]);
      if a[n] == '0' {
        TrimOnlyZeros(a[..n], b[..n]);
      }
      assert a == a[..n] + [a[n]] && b == b[..n] + [b[n]];
    }
  }

  lemma {:induction false} TrimShortens(a: string)
    ensures |Trim(a)| <= |a| && (|Trim(a)| == |a| <==> a == [] || a[|a| - 1] != '0')
  {
    if a != [] && a[|a| - 1] == '0' {
      TrimShortens(a[..|a| - 1]);
    }
  }

  lemma TailsDiffer(m: nat, n: nat)
    requires m < n < 1_000_000_000
    ensures Tail(m) != Tail(n)
  {
    if m == 0 {
      assert Tail(n)[0] == '.';
    } else {
      var p, q := Padded(m, 9), Padded(n, 9);
      assert Power10(9) == 1_000_000_000 by { assert Power10(3) == 1000; assert Power10(6) == 1_000_000; }
      PaddedInOrder(m, n, 9);
      Irreflexive(p);
      if Tail(m) == Tail(n) {
        assert Tail(m)[1..|Tail(m)| - 1] == Trim(p) && Tail(n)[1..|Tail(n)| - 1] == Trim(q);
        TrimOnlyZeros(p, q);
      }
    }
  }

  /** Format is injective, so the text of a time can stand for the time as a table key. */
  lemma FormatInjective(a: Stamp, b: Stamp)
    requires Representable(a.sec) && Representable(b.sec) && Format(a) == Format(b)
    ensures a == b
  {
    if a != b {
      TextOrder(a, b);
      TextOrder(b, a);
      Irreflexive(Format(a));
      if a.sec == b.sec {
        if a.nano < b.nano {
          TailsDiffer(a.nano, b.nano);
        } else {
          TailsDiffer(b.nano, a.nano);
        }
        Connected(Tail(a.nano), Tail(b.nano));
      }
    }
  }

  // ---------- Buckets ----------

  /** The whole-second time a rollup bound is formatted from. */
  function HourBound(k: nat): Stamp {
    RawStamp(k * 3600, 0)
  }

  function DayBound(k: nat): Stamp {
    RawStamp(k * 86400, 0)
  }

  /** What `collected_at >= from AND collected_at < to` selects for the k-th hour; ExactBucket shows that it does. */
  predicate InHour(t: Stamp, k: nat) {
    var h := k * 3600;
    && (t.sec > h || (t.sec == h && t.nano == 0))
    && (t.sec < h + 3600 || (t.sec == h + 3600 && t.nano > 0))
  }

  /** The hour a stored time is counted in; a fraction right at the start of an hour counts for the hour before. */
  function Bucket(t: Stamp): int {
    if t.nano == 0 then t.sec / 3600 else (t.sec - 1) / 3600
  }

  lemma TailStarts(nano: nat)
    ensures nano == 0 ==> Tail(nano) == "Z"
    ensures nano > 0 ==> Tail(nano)[0] == '.'
  {
  }

  /** Against a whole second, a time with a fraction in the same second comes first. */
  lemma AgainstWholeSecond(t: Stamp, sec: nat)
    ensures Before(t, RawStamp(sec, 0)) <==> t.sec < sec || (t.sec == sec && t.nano > 0)
  {
    TailStarts(t.nano);
    Irreflexive("Z");
  }

  lemma BucketOfHour(t: Stamp, k: nat)
    ensures InHour(t, k) <==> Bucket(t) == k
  {
  }

  /** A time with a fraction in the very second that starts an hour. */
  predicate InStartSecond(t: Stamp, hour: nat) {
    t.sec == hour * 3600 && t.nano > 0
  }

  /** A time is counted in the hour it lies in, unless it has a fraction in the hour's first second. */
  lemma CountedInOwnHour(t: Stamp)
    ensures Bucket(t) == t.sec / 3600 <==> !InStartSecond(t, t.sec / 3600)
    ensures InStartSecond(t, t.sec / 3600) ==> Bucket(t) == t.sec / 3600 - 1
  {
  }

  /** What is counted before an hour: what lies before it, and a fraction in its first second. */
  lemma CountedBefore(t: Stamp, hour: nat)
    ensures Bucket(t) < hour <==> t.sec < hour * 3600 || InStartSecond(t, hour)
  {
  }

  /** Exact bucket of a stored time under the order of the texts in the query; consecutive buckets tile. */
  lemma ExactBucket(t: Stamp, k: nat)
    requires Representable(t.sec) && Representable(k * 3600) && Representable((k + 1) * 3600)
    ensures var from, to := Format(HourBound(k)), Format(HourBound(k + 1));
      !TextLess(Format(t), from) && TextLess(Format(t), to) <==> InHour(t, k)
    ensures InHour(t, k) <==> Bucket(t) == k
  {
    TextOrder(t, HourBound(k));
    TextOrder(t, HourBound(k + 1));
    AgainstWholeSecond(t, k * 3600);
    AgainstWholeSecond(t, (k + 1) * 3600);
    BucketOfHour(t, k);
  }

  /** The 24 hours that `hour_start >= from AND hour_start < to` selects for a day. */
  predicate InDay(hour: nat, day: nat) {
    24 * day <= hour < 24 * day + 24
  }

  lemma HoursOfDay(hour: nat, day: nat)
    requires Representable(hour * 3600) && Representable(day * 86400) && Representable((day + 1) * 86400)
    ensures var from, to := Format(DayBound(day)), Format(DayBound(day + 1));
      var start := Format(HourBound(hour));
      !TextLess(start, from) && TextLess(start, to) <==> InDay(hour, day)
  {
    TextOrder(HourBound(hour), DayBound(day));
    TextOrder(HourBound(hour), DayBound(day + 1));
    AgainstWholeSecond(HourBound(hour), day * 86400);
    AgainstWholeSecond(HourBound(hour), (day + 1) * 86400);
  }

  /** Deleting everything before a cutoff spares every hour from `endHour` on exactly when the cutoff is no later. */
  lemma CutoffSparesFrom(cutoff: Stamp, endHour: nat)
    ensures (forall t: Stamp | Before(t, cutoff) :: Bucket(t) < endHour) <==> cutoff.sec <= endHour * 3600
  {
    if cutoff.sec <= endHour * 3600 {
      forall t: Stamp | Before(t, cutoff) ensures Bucket(t) < endHour {
        TailStarts(t.nano);
        TailStarts(cutoff.nano);
        Irreflexive("Z");
      }
    } else {
      var t := HourBound(endHour);
      assert Before(t, cutoff) && Bucket(t) == endHour;
    }
  }
}
