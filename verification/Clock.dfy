/** UTC date-times and the layouts the repository prints them in. */
module Clock {
  import opened Options
  import opened Sorting
  import Decimal

  /** A UTC date-time to the second, in the four-digit years that Go's layouts print with four digits. */
  datatype DateTime = DateTime(year: nat, month: nat, day: nat, hour: nat, minute: nat, second: nat)
  {
    predicate Valid() {
      year < 10000 && 1 <= month <= 12 && 1 <= day <= 31 && hour < 24 && minute < 60 && second < 60
    }
  }

  /** Chronological order. */
  predicate Before(a: DateTime, b: DateTime) {
    || a.year < b.year
    || (a.year == b.year && a.month < b.month)
    || (a.year == b.year && a.month == b.month && a.day < b.day)
    || (a.year == b.year && a.month == b.month && a.day == b.day && a.hour < b.hour)
    || (a.year == b.year && a.month == b.month && a.day == b.day && a.hour == b.hour && a.minute < b.minute)
    || (a.year == b.year && a.month == b.month && a.day == b.day && a.hour == b.hour && a.minute == b.minute
        && a.second < b.second)
  }

  /** `n` in exactly `width` digits, higher digits dropped. */
  function Pad(n: nat, width: nat): (s: string)
    ensures |s| == width && Decimal.AllDigits(s)
  {
    if width == 0 then "" else Pad(n / 10, width - 1) + [Decimal.Digit(n % 10)]
  }

  /** Go's "2006-01-02T15:04:05Z07:00" (time.RFC3339) of a UTC time. */
  function Rfc3339(t: DateTime): string {
    Three(Pad(t.year, 4), Pad(t.month, 2), Pad(t.day, 2), '-')
      + ("T" + (Three(Pad(t.hour, 2), Pad(t.minute, 2), Pad(t.second, 2), ':') + "Z"))
  }

  /** Three fields with a separator in between. */
  function Three(a: string, b: string, c: string, sep: char): string {
    a + ([sep] + (b + ([sep] + c)))
  }

  lemma Rfc3339IsOneWord(t: DateTime)
    ensures ' ' !in Rfc3339(t) && '\n' !in Rfc3339(t)
  {
  }

  /** A fixed-width number. */
  function ReadField(s: string): Option<nat> {
    if Decimal.AllDigits(s) then Some(Decimal.Value(s)) else None
  }

  /** Three numbers, the first of `width` digits and the others of two. */
  function ReadThree(s: string, sep: char, width: nat): Option<(nat, nat, nat)> {
    if |s| != width + 6 || s[width] != sep || s[width + 3] != sep then None
    else
      match (ReadField(s[..width]), ReadField(s[width + 1..width + 3]), ReadField(s[width + 4..]))
      case (Some(a), Some(b), Some(c)) => Some((a, b, c))
      case _ => None
  }

  /** Reads a UTC timestamp of RFC 3339, section 5.6: fixed fields between fixed separators. */
  function ReadRfc3339(s: string): Option<DateTime> {
    if |s| != 20 || s[10] != 'T' || s[19] != 'Z' then None
    else
      match (ReadThree(s[..10], '-', 4), ReadThree(s[11..19], ':', 2))
      case (Some((y, mo, d)), Some((h, mi, sec))) => Some(DateTime(y, mo, d, h, mi, sec))
      case _ => None
  }

  lemma {:induction false} PadReads(n: nat, width: nat)
    requires n < Decimal.Pow10(width)
    ensures ReadField(Pad(n, width)) == Some(n)
    decreases width
  {
    if width > 0 {
      PadReads(n / 10, width - 1);
      var s, c := Pad(n / 10, width - 1), Decimal.Digit(n % 10);
      assert (s + [c])[..|s|] == s;
      assert (c - '0') as nat == n % 10;
    }
  }

  lemma ThreeRead(a: string, b: string, c: string, sep: char, width: nat)
    requires |a| == width && |b| == |c| == 2
    ensures var s := Three(a, b, c, sep);
            && |s| == width + 6 && s[width] == sep && s[width + 3] == sep
            && s[..width] == a && s[width + 1..width + 3] == b && s[width + 4..] == c
  {
    var s := Three(a, b, c, sep);
    assert s[width + 1..] == b + ([sep] + c);
  }

  lemma DateAndTime(date: string, time: string)
    requires |date| == 10 && |time| == 8
    ensures var s := date + ("T" + (time + "Z"));
            |s| == 20 && s[10] == 'T' && s[19] == 'Z' && s[..10] == date && s[11..19] == time
  {
  }

  /** A timestamp reads back as its time. */
  lemma Rfc3339Reads(t: DateTime)
    requires t.Valid()
    ensures ReadRfc3339(Rfc3339(t)) == Some(t)
  {
    assert Decimal.Pow10(4) == 10000 && Decimal.Pow10(2) == 100;
    PadReads(t.year, 4);
    PadReads(t.month, 2);
    PadReads(t.day, 2);
    PadReads(t.hour, 2);
    PadReads(t.minute, 2);
    PadReads(t.second, 2);
    var date := Three(Pad(t.year, 4), Pad(t.month, 2), Pad(t.day, 2), '-');
    var time := Three(Pad(t.hour, 2), Pad(t.minute, 2), Pad(t.second, 2), ':');
    ThreeRead(Pad(t.year, 4), Pad(t.month, 2), Pad(t.day, 2), '-', 4);
    ThreeRead(Pad(t.hour, 2), Pad(t.minute, 2), Pad(t.second, 2), ':', 2);
    assert ReadThree(date, '-', 4) == Some((t.year, t.month, t.day));
    assert ReadThree(time, ':', 2) == Some((t.hour, t.minute, t.second));
    DateAndTime(date, time);
  }

  /** Go's "20060102T150405Z". */
  function Stamp(t: DateTime): string {
    Pad(t.year, 4) + (Pad(t.month, 2) + (Pad(t.day, 2) + StampTime(t)))
  }

  function StampTime(t: DateTime): string {
    "T" + (Pad(t.hour, 2) + (Pad(t.minute, 2) + (Pad(t.second, 2) + "Z")))
  }

  lemma DigitOrder(m: nat, n: nat)
    requires m < 10 && n < 10
    ensures StringLess([Decimal.Digit(m)], [Decimal.Digit(n)]) <==> m < n
    ensures Decimal.Digit(m) == Decimal.Digit(n) <==> m == n
  {
    assert [Decimal.Digit(m)][1..] == "" && [Decimal.Digit(n)][1..] == "";
  }

  /** Fixed-width numerals order as their numbers do. */
  lemma {:induction false} PadOrder(m: nat, n: nat, width: nat)
    requires m < Decimal.Pow10(width) && n < Decimal.Pow10(width)
    ensures StringLess(Pad(m, width), Pad(n, width)) <==> m < n
    ensures Pad(m, width) == Pad(n, width) <==> m == n
    decreases width
  {
    if width > 0 {
      var a, b := Pad(m / 10, width - 1), Pad(n / 10, width - 1);
      var x, y := [Decimal.Digit(m % 10)], [Decimal.Digit(n % 10)];
      PadOrder(m / 10, n / 10, width - 1);
      DigitOrder(m % 10, n % 10);
      CompareParts(a, x, b, y);
      if a + x == b + y {
        assert a == (a + x)[..width - 1] && b == (b + y)[..width - 1] && (a + x)[width - 1] == (b + y)[width - 1];
      }
    }
  }

  /** One fixed-width field in front of two texts. */
  lemma FieldOrder(m: nat, x: string, n: nat, y: string, width: nat)
    requires m < Decimal.Pow10(width) && n < Decimal.Pow10(width)
    ensures StringLess(Pad(m, width) + x, Pad(n, width) + y) <==> m < n || (m == n && StringLess(x, y))
  {
    PadOrder(m, n, width);
    CompareParts(Pad(m, width), x, Pad(n, width), y);
  }

  /** The same text in front of two others. */
  lemma CommonPrefix(p: string, x: string, y: string)
    ensures StringLess(p + x, p + y) <==> StringLess(x, y)
  {
    CompareParts(p, x, p, y);
    StringLessIrreflexive(p);
  }

  lemma CommonSuffix(a: string, b: string, q: string)
    requires |a| == |b|
    ensures StringLess(a + q, b + q) <==> StringLess(a, b)
  {
    CompareParts(a, q, b, q);
    StringLessIrreflexive(q);
  }

  /** Timestamps order as strings exactly as their times do. */
  lemma StampOrder(a: DateTime, b: DateTime)
    requires a.Valid() && b.Valid()
    ensures StringLess(Stamp(a), Stamp(b)) <==> Before(a, b)
    ensures |Stamp(a)| == |Stamp(b)| == 16
  {
    assert Decimal.Pow10(4) == 10000 && Decimal.Pow10(2) == 100;
    var a6, b6 := Pad(a.second, 2) + "Z", Pad(b.second, 2) + "Z";
    var a5, b5 := Pad(a.minute, 2) + a6, Pad(b.minute, 2) + b6;
    var a4, b4 := Pad(a.hour, 2) + a5, Pad(b.hour, 2) + b5;
    var a3, b3 := Pad(a.day, 2) + ("T" + a4), Pad(b.day, 2) + ("T" + b4);
    var a2, b2 := Pad(a.month, 2) + a3, Pad(b.month, 2) + b3;
    FieldOrder(a.second, "Z", b.second, "Z", 2);
    StringLessIrreflexive("Z");
    FieldOrder(a.minute, a6, b.minute, b6, 2);
    FieldOrder(a.hour, a5, b.hour, b5, 2);
    CommonPrefix("T", a4, b4);
    FieldOrder(a.day, "T" + a4, b.day, "T" + b4, 2);
    FieldOrder(a.month, a3, b.month, b3, 2);
    FieldOrder(a.year, a2, b.year, b2, 4);
  }
}
