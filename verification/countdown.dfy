/**
  The countdown (src/components/Countdown.tsx): the time left until the
  event split into days, hours, minutes and seconds, and the two-digit
  display of each part. Times are integer milliseconds, as `getTime()`
  returns them.
*/
module Countdown {
  import opened Strings

  datatype TimeLeft = TimeLeft(days: nat, hours: nat, minutes: nat, seconds: nat)

  const MsPerSecond: nat := 1000
  const MsPerMinute: nat := 1000 * 60
  const MsPerHour: nat := 1000 * 60 * 60
  const MsPerDay: nat := 1000 * 60 * 60 * 24

  /** JavaScript's `x % m` for a non-negative dividend and positive divisor. */
  function JsRem(x: real, m: real): real
    requires x >= 0.0 && m > 0.0
  {
    x - m * ((x / m).Floor as real)
  }

  /** `Math.floor((d / k) % m)` as the code writes it, over exact reals. */
  function FloorRemOfQuotient(d: nat, k: nat, m: nat): int
    requires k > 0 && m > 0
  {
    JsRem(d as real / k as real, m as real).Floor
  }

  lemma DivUnique(a: int, n: int, q: int, r: int)
    requires n > 0 && a == n * q + r && 0 <= r < n
    ensures a / n == q && a % n == r
  {
    var q', r' := a / n, a % n;
    assert n * (q' - q) == r - r' by {
      assert n * q' + r' == n * q + r;
    }
    if q' > q {
      MulAtLeast(n, q' - q);
    } else if q' < q {
      MulAtLeast(n, q - q');
    }
  }

  lemma MulAtLeast(n: int, k: int)
    requires n > 0 && k >= 1
    ensures n * k >= n
  {
    assert n * k == n + n * (k - 1);
  }

  /** Dividing twice is dividing by the product. */
  lemma DivDiv(a: nat, b: nat, c: nat)
    requires b > 0 && c > 0
    ensures a / (b * c) == (a / b) / c
  {
    var q, r := a / b, a % b;
    var q2, r2 := q / c, q % c;
    assert a == b * q + r;
    assert q == c * q2 + r2;
    assert b * q == (b * c) * q2 + b * r2 by {
      MulDistributes(b, c * q2, r2);
      assert b * (c * q2) == (b * c) * q2;
    }
    assert b * r2 + r < b * c by {
      MulLeMono(b, r2, c - 1);
      MulDistributes(b, c - 1, 1);
    }
    DivUnique(a, b * c, q2, b * r2 + r);
  }

  lemma MulDistributes(b: int, x: int, y: int)
    ensures b * (x + y) == b * x + b * y
  {
  }

  lemma MulLeMono(b: nat, x: nat, y: nat)
    requires x <= y
    ensures b * x <= b * y
  {
    MulDistributes(b, x, y - x);
  }

  /** The floor of an exact quotient of naturals is integer division. */
  lemma FloorOfQuotient(d: nat, k: nat)
    requires k > 0
    ensures (d as real / k as real).Floor == d / k
  {
    var x := d as real / k as real;
    var q := d / k;
    assert x * k as real == d as real;
    assert (q * k) as real <= d as real < ((q + 1) * k) as real;
    assert q as real * k as real <= x * k as real;
    assert x * k as real < (q + 1) as real * k as real;
    assert q as real <= x < (q + 1) as real;
  }

  lemma FloorMinusInteger(x: real, n: int)
    ensures (x - n as real).Floor == x.Floor - n
  {
  }

  /** `Math.floor((d / k) % m)` is exactly `(d div k) mod m`. */
  lemma FloorRemIsIntegerMod(d: nat, k: nat, m: nat)
    requires k > 0 && m > 0
    ensures FloorRemOfQuotient(d, k, m) == (d / k) % m
  {
    var x := d as real / k as real;
    var q := d / k;
    FloorOfQuotient(d, k);
    assert x / m as real == d as real / (k * m) as real;
    FloorOfQuotient(d, k * m);
    DivDiv(d, k, m);
    var n := m * (q / m);
    assert JsRem(x, m as real) == x - n as real;
    FloorMinusInteger(x, n);
  }

  /** `calculateTimeLeft`: nothing left once the moment has passed;
      otherwise whole days, then the hours, minutes and seconds within the
      last day, hour and minute. */
  function CalculateTimeLeft(target: int, now: int): (t: TimeLeft)
    ensures target - now <= 0 ==> t == TimeLeft(0, 0, 0, 0)
    ensures target - now > 0 ==> t.days == (target - now) / MsPerDay
    ensures t.hours < 24 && t.minutes < 60 && t.seconds < 60
  {
    var difference := target - now;
    if difference > 0 then
      TimeLeft(
        difference / MsPerDay,
        (difference / MsPerHour) % 24,
        (difference / MsPerMinute) % 60,
        (difference / MsPerSecond) % 60)
    else TimeLeft(0, 0, 0, 0)
  }

  /** The code's floating-point expressions, evaluated exactly, give the same
      parts. */
  lemma CalculateMatchesFloorExpressions(target: int, now: int)
    requires target - now > 0
    ensures var d, t := target - now, CalculateTimeLeft(target, now);
            && t.days == (d as real / MsPerDay as real).Floor
            && t.hours == FloorRemOfQuotient(d, MsPerHour, 24)
            && t.minutes == FloorRemOfQuotient(d, MsPerMinute, 60)
            && t.seconds == FloorRemOfQuotient(d, MsPerSecond, 60)
  {
    var d := target - now;
    FloorOfQuotient(d, MsPerDay);
    FloorRemIsIntegerMod(d, MsPerHour, 24);
    FloorRemIsIntegerMod(d, MsPerMinute, 60);
    FloorRemIsIntegerMod(d, MsPerSecond, 60);
  }

  /** The parts add back up to the whole seconds left. */
  lemma Recomposition(target: int, now: int)
    requires target - now > 0
    ensures var t := CalculateTimeLeft(target, now);
            t.days * 86400 + t.hours * 3600 + t.minutes * 60 + t.seconds == (target - now) / 1000
  {
    var d := target - now;
    var s := d / 1000;
    DivDiv(d, 1000, 60);
    DivDiv(d, 60000, 60);
    DivDiv(d, 3600000, 24);
    var m, h, dd := s / 60, s / 3600, s / 86400;
    assert d / MsPerMinute == m;
    DivDiv(s, 60, 60);
    assert d / MsPerHour == h;
    DivDiv(s, 3600, 24);
    assert d / MsPerDay == dd;
    assert s == 60 * m + s % 60;
    assert m == 60 * (m / 60) + m % 60;
    assert h == 24 * (h / 24) + h % 24;
  }

  /** A block shows `n`: at least two decimal digits that read back as `n`. */
  predicate Shows(block: string, n: nat) {
    |block| >= 2 && AllDigits(block) && DecimalValue(block) == n
  }

  /** One part as the clock shows it: `String(n).padStart(2, '0')`. */
  function Block(n: nat): (b: string)
    ensures Shows(b, n)
    ensures n < 100 ==> |b| == 2
  {
    PadTwo(n)
  }

  /** The four displayed blocks, each showing its part. */
  function Blocks(t: TimeLeft): (b: seq<string>)
    ensures |b| == 4
    ensures Shows(b[0], t.days) && Shows(b[1], t.hours)
    ensures Shows(b[2], t.minutes) && Shows(b[3], t.seconds)
  {
    [Block(t.days), Block(t.hours), Block(t.minutes), Block(t.seconds)]
  }

  /** Hours, minutes and seconds always show exactly two digits. */
  lemma ClockPartsShowTwoDigits(target: int, now: int)
    ensures var b := Blocks(CalculateTimeLeft(target, now)); |b[1]| == 2 && |b[2]| == 2 && |b[3]| == 2
  {
  }
}
