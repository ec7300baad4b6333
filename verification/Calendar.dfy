/** The dates that DATETIME14 accepts against a count of days, and its text against a number. */
module Calendar {
  import opened JsonString
  import opened TextTools
  import opened FieldMap

  /** The number of a day in the proleptic Gregorian calendar, counted with years that begin in
      March, so that the leap day comes last. */
  function DayNumber(year: int, month: int, day: int): int {
    var y := if month <= 2 then year - 1 else year;
    var m := if month <= 2 then month + 9 else month - 3;
    DaysBefore(y) + (153 * m + 2) / 5 + day
  }

  /** The days of the years before: every fourth year has one more, but not every hundredth,
      but every four hundredth. */
  function DaysBefore(y: int): int { 365 * y + y / 4 - y / 100 + y / 400 }

  /** The number of the first day of the next month. */
  function NextMonth(year: int, month: int): int {
    if month == 12 then DayNumber(year + 1, 1, 1) else DayNumber(year, month + 1, 1)
  }

  lemma {:induction false} YearsAreCounted(y: nat)
    ensures DaysBefore(y) - DaysBefore(y - 1) == if IsLeap(y) then 366 else 365
  {
    Steps(y, 4);
    Steps(y, 100);
    Steps(y, 400);
    Multiples(y, 4, 25);
    Multiples(y, 100, 4);
  }

  /** A multiple of a product is a multiple of its factor. */
  lemma {:induction false} Multiples(y: int, a: int, b: int)
    requires a > 0 && b > 0
    ensures a * b > 0 && (y % (a * b) == 0 ==> y % a == 0)
  {
    var n := a * b;
    assert n > 0;
    if y % n == 0 {
      var q := b * (y / n);
      assert y == n * (y / n);
      assert n * (y / n) == a * q by { Regroup(a, b, y / n); }
      Quotient(y, a, q, 0);
    }
  }

  lemma {:induction false} Regroup(a: int, b: int, c: int)
    ensures a * b * c == a * (b * c)
  {
  }

  lemma {:induction false} Steps(y: int, n: int)
    requires n > 0
    ensures y / n - (y - 1) / n == if y % n == 0 then 1 else 0
  {
    var q, r := y / n, y % n;
    assert y == n * q + r;
    if r == 0 {
      assert y - 1 == n * (q - 1) + (n - 1);
      Quotient(y - 1, n, q - 1, n - 1);
    } else {
      Quotient(y - 1, n, q, r - 1);
    }
  }

  lemma {:induction false} Quotient(x: int, n: int, q: int, r: int)
    requires n > 0 && x == n * q + r && 0 <= r < n
    ensures x / n == q
  {
    var d := x / n - q;
    assert x == n * (x / n) + x % n;
    assert n * d == r - x % n;
    assert d >= 1 ==> n * d >= n;
    assert d <= -1 ==> n * d <= -n;
  }

  /** Months have as many days as the count goes on to the next. */
  lemma {:induction false} MonthsAreCounted(year: nat, month: nat)
    requires 1 <= month <= 12
    ensures NextMonth(year, month) - DayNumber(year, month, 1) == DaysIn(year, month)
  {
    hide DaysBefore;
    YearsAreCounted(year);
  }

  /** The dates and times that are real: the months of the year, the days until the next month
      begins, and the seconds of a day of 86400. */
  lemma {:induction false} RealDatesIff(d: DateTime)
    ensures IsDateTime(d) <==>
      (&& 1 <= d.month <= 12 && 1 <= d.day && DayNumber(d.year, d.month, d.day) < NextMonth(d.year, d.month)
       && d.minute < 60 && d.second < 60 && 3600 * d.hour + 60 * d.minute + d.second < 86400)
  {
    if 1 <= d.month <= 12 { MonthsAreCounted(d.year, d.month); }
  }

  lemma {:induction false} TenTimes(a: int, p: int, n: int, d: int)
    ensures 10 * (a * p + n) + d == a * (10 * p) + (10 * n + d)
  {
  }

  lemma {:induction false} NumberSplits(a: Text, b: Text)
    requires AllDigits(a) && AllDigits(b)
    ensures AllDigits(a + b) && Number(a + b) == Number(a) * Pow10(|b|) + Number(b)
    decreases |b|
  {
    if b == [] {
      assert a + b == a;
    } else {
      var init := b[..|b| - 1];
      assert (a + b)[..|a + b| - 1] == a + init;
      NumberSplits(a, init);
      TenTimes(Number(a), Pow10(|init|), Number(init), b[|b| - 1] - ZERO);
    }
  }

  /** The fourteen digits, read as one number, are the year, month, day, hour, minute and second
      in this order: later times have larger texts. */
  lemma {:induction false} Format14IsOrdered(d: DateTime)
    requires IsDateTime(d) && d.year <= 9999
    ensures AllDigits(Format14(d)) &&
      Number(Format14(d)) == 10000000000 * d.year + 100000000 * d.month + 1000000 * d.day + 10000 * d.hour + 100 * d.minute + d.second
  {
    hide Padded, Number;
    assert Pow10(2) == 10 * (10 * Pow10(0));
    var y, mo, da := Padded(4, d.year), Padded(2, d.month), Padded(2, d.day);
    var h, mi, s := Padded(2, d.hour), Padded(2, d.minute), Padded(2, d.second);
    PaddedRange(4, d.year);
    PaddedRange(2, d.month);
    PaddedRange(2, d.day);
    PaddedRange(2, d.hour);
    PaddedRange(2, d.minute);
    PaddedRange(2, d.second);
    NumberSplits(y, mo);
    NumberSplits(y + mo, da);
    NumberSplits(y + mo + da, h);
    NumberSplits(y + mo + da + h, mi);
    NumberSplits(y + mo + da + h + mi, s);
    assert [] + y == y;
  }
}
