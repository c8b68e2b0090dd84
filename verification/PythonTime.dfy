/** Points in time on their way from Python to a variant and back.  A point is a count of microseconds
    since 1970; Python hands its seconds over as a double, the nearest one to the exact number. */
module PythonTime {
  const MILLION := 1000000
  const TWO_53 := 0x20_0000_0000_0000
  /** The first microsecond of year 1, and the first after year 9999. */
  const YEAR_1 := -62135596800 * MILLION
  const YEAR_10000 := 253402300800 * MILLION

  predicate IsDateTime(t: int) { YEAR_1 <= t < YEAR_10000 }

  function Abs(t: int): nat { if t < 0 then -t else t }

  /** a / b rounded to the nearest integer, a tie to the even one. */
  function Nearest(a: int, b: nat): int
    requires b > 0
  {
    var low, rest := a / b, a % b;
    if 2 * rest < b || (2 * rest == b && low % 2 == 0) then low else low + 1
  }

  /** Doubles have 53 significant bits: the largest power of two by which so many seconds can be
      multiplied without needing more. */
  function Scale(t: nat, p: nat): (r: nat)
    requires p > 0
    ensures r >= p && (p % 2 == 0 ==> r % 2 == 0)
    decreases TWO_53 - p
  {
    if 2 * p <= TWO_53 && t * (2 * p) < TWO_53 * MILLION then Scale(t, 2 * p) else p
  }

  function Truncated(a: int, b: nat): int
    requires b > 0
  {
    if a >= 0 then a / b else -(-a / b)
  }

  /** The seconds of the timestamp, cut to an integer as the cast does. */
  function WholeSeconds(t: int): int {
    var p := Scale(Abs(t), 1);
    Truncated(Nearest(t * p, MILLION), p)
  }

  datatype Timestamp = Timestamp(sec: int, nsec: int, offset: int)

  function ToTimestamp(t: int): Timestamp { Timestamp(WholeSeconds(t), t % MILLION * 1000, 0) }

  function FromTimestamp(ts: Timestamp): int { ts.sec * MILLION + ts.nsec / 1000 }

  /** The microseconds next to a whole second that a double cannot tell from it. */
  function Lost(t: nat): nat {
    if t < 0x4_0000_0000 * MILLION then 0
    else if t < 0x8_0000_0000 * MILLION then 1
    else if t < 0x10_0000_0000 * MILLION then 3
    else if t < 0x20_0000_0000 * MILLION then 7
    else 15
  }

  /** From 1970 on the microseconds must not reach the next second; before, only whole seconds work,
      apart from those microseconds that are lost anyway. */
  predicate KeepsTime(t: int) {
    if t >= 0 then t % MILLION + Lost(t) < MILLION else t % MILLION <= Lost(-t)
  }

  // ----- the scale -----

  lemma ScaleClimbs(t: nat)
    requires t < 0x40_0000_0000 * MILLION
    ensures Scale(t, 1) == Scale(t, 0x8000)
  {
    var p := 1;
    while p < 0x8000
      invariant p in {1, 2, 4, 8, 0x10, 0x20, 0x40, 0x80, 0x100, 0x200, 0x400, 0x800, 0x1000, 0x2000, 0x4000, 0x8000}
      invariant Scale(t, 1) == Scale(t, p)
    {
      p := 2 * p;
    }
  }

  predicate ScaleTable(t: nat, p: nat) {
    if t < 0x4_0000_0000 * MILLION then p >= 0x8_0000 && p % 2 == 0
    else if t < 0x8_0000_0000 * MILLION then p == 0x4_0000
    else if t < 0x10_0000_0000 * MILLION then p == 0x2_0000
    else if t < 0x20_0000_0000 * MILLION then p == 0x1_0000
    else p == 0x8000
  }

  /** The scale follows the size of the number. */
  lemma ScaleIs(t: nat)
    requires t < 0x40_0000_0000 * MILLION
    ensures ScaleTable(t, Scale(t, 1))
  {
    hide Scale;
    ScaleClimbs(t);
    ScaleStep(t, 0x8000);
    ScaleStep(t, 0x1_0000);
    ScaleStep(t, 0x2_0000);
    ScaleStep(t, 0x4_0000);
  }

  lemma ScaleStep(t: nat, p: nat)
    requires 0 < p <= 0x4_0000
    ensures Scale(t, p) == if t * (2 * p) < TWO_53 * MILLION then Scale(t, 2 * p) else p
  {
  }

  // ----- rounding -----

  lemma Product(a: int, b: int)
    requires a >= 0 && b >= 0
    ensures a * b >= 0
  {
  }

  lemma MultipleGrows(d: int, b: nat)
    ensures d >= 1 ==> d * b >= b
    ensures d <= -1 ==> d * b <= 0 - b
  {
  }

  lemma DivMod(a: int, b: nat, q: int, r: nat)
    requires b > 0 && r < b && a == q * b + r
    ensures a / b == q && a % b == r
  {
    assert (a / b - q) * b == r - a % b;
    MultipleGrows(a / b - q, b);
  }

  /** Rounding goes along with an even shift. */
  lemma NearestShift(k: int, a: nat)
    requires k % 2 == 0
    ensures Nearest(k * MILLION + a, MILLION) == k + Nearest(a, MILLION)
  {
    DivMod(k * MILLION + a, MILLION, k + a / MILLION, a % MILLION);
  }

  lemma NearestLow(a: nat)
    ensures Nearest(a, MILLION) >= 0 && (Nearest(a, MILLION) == 0 <==> 2 * a <= MILLION)
  {
  }

  lemma NearestHigh(a: nat, p: nat)
    requires a < p * MILLION && p % 2 == 0
    ensures Nearest(a, MILLION) <= p && (Nearest(a, MILLION) == p <==> 2 * (p * MILLION - a) <= MILLION)
  {
    var low, rest := a / MILLION, a % MILLION;
    assert a == low * MILLION + rest;
    if low + 1 < p {
      assert (low + 2) * MILLION <= p * MILLION;
    }
  }

  /** Where the fraction of a second ends up, in units of 1 / p. */
  lemma NearestFraction(us: nat, p: nat)
    requires us < MILLION && p > 0 && p % 2 == 0
    ensures var n := Nearest(us * p, MILLION);
            0 <= n <= p && (n == p <==> 2 * p * (MILLION - us) <= MILLION) && (n == 0 <==> 2 * p * us <= MILLION)
  {
    hide Nearest;
    FractionProducts(us, p);
    NearestLow(us * p);
    NearestHigh(us * p, p);
  }

  lemma FractionProducts(us: int, p: int)
    requires 0 <= us < MILLION && p > 0
    ensures 0 <= us * p < p * MILLION
    ensures 2 * (p * MILLION - us * p) == 2 * p * (MILLION - us)
    ensures 2 * (us * p) == 2 * p * us
  {
    Product(us, p);
    MultipleGrows(MILLION - us, p);
  }

  lemma TruncatedIs(s: int, n: nat, p: nat)
    requires p > 0 && n <= p
    ensures Truncated(s * p + n, p) == if s >= 0 then (if n == p then s + 1 else s) else if n == 0 then s else s + 1
  {
    if s >= 0 {
      assert s * p >= 0;
      if n == p {
        DivMod(s * p + n, p, s + 1, 0);
      } else {
        DivMod(s * p + n, p, s, n);
      }
    } else {
      MultipleGrows(s, p);
      if n == 0 {
        DivMod(-(s * p), p, -s, 0);
      } else {
        DivMod(-(s * p + n), p, -s - 1, p - n);
      }
    }
  }

  /** When the seconds come out right, for any scale. */
  lemma SecondsAtScale(t: int, p: nat)
    requires p > 0 && p % 2 == 0
    ensures var s, us := t / MILLION, t % MILLION;
            Truncated(Nearest(t * p, MILLION), p) == s <==>
            if t >= 0 then 2 * p * (MILLION - us) > MILLION else 2 * p * us <= MILLION
  {
    var s, us := t / MILLION, t % MILLION;
    assert t == s * MILLION + us;
    assert t * p == s * p * MILLION + us * p;
    assert s * p % 2 == 0 by { EvenProduct(s, p); }
    Product(us, p);
    NearestShift(s * p, us * p);
    NearestFraction(us, p);
    TruncatedIs(s, Nearest(us * p, MILLION), p);
  }

  lemma EvenProduct(s: int, p: nat)
    requires p % 2 == 0
    ensures s * p % 2 == 0
  {
    assert s * p == (s * (p / 2)) * 2;
  }

  /** The round trip of a point in time is exact under exactly this condition. */
  lemma TimeRoundTrip(t: int)
    requires IsDateTime(t)
    ensures FromTimestamp(ToTimestamp(t)) == t <==> KeepsTime(t)
  {
    hide Scale, Truncated, Nearest, ScaleTable, Lost;
    var p, us := Scale(Abs(t), 1), t % MILLION;
    ScaleIs(Abs(t));
    TableIsEven(Abs(t), p);
    SecondsAtScale(t, p);
    LostIs(Abs(t), us, p);
    assert t == t / MILLION * MILLION + us;
  }

  lemma TableIsEven(t: nat, p: nat)
    requires ScaleTable(t, p)
    ensures p > 0 && p % 2 == 0
  {
  }

  lemma LostIs(t: nat, us: nat, p: nat)
    requires us < MILLION && ScaleTable(t, p)
    ensures 2 * p * (MILLION - us) > MILLION <==> us + Lost(t) < MILLION
    ensures 2 * p * us <= MILLION <==> us <= Lost(t)
  {
    if t < 0x4_0000_0000 * MILLION {
      SmallScale(us, 2 * p);
    }
  }

  lemma SmallScale(us: nat, q: nat)
    requires us < MILLION && q >= 0x10_0000
    ensures q * (MILLION - us) > MILLION && (q * us <= MILLION <==> us == 0)
  {
    MultipleGrows(MILLION - us, q);
    MultipleGrows(us, q);
  }

  /** In the year 2514 the last microsecond of a second comes back one second late. */
  lemma LateTimeMoves()
    ensures var t := 0x4_0000_0000 * MILLION + 999999; IsDateTime(t) && FromTimestamp(ToTimestamp(t)) == t + MILLION
  {
    hide Scale;
    ScaleIs(0x4_0000_0000 * MILLION + 999999);
  }

  /** Half a second before 1970 comes back as half a second after. */
  lemma EarlyTimeMoves()
    ensures FromTimestamp(ToTimestamp(-500000)) == 500000
  {
    hide Scale, Nearest, Truncated;
    var p: int := Scale(500000, 1);
    ScaleIs(500000);
    NearestShift(-p, 500000 * p);
    NearestFraction(500000, p);
    TruncatedIs(-1, Nearest(500000 * p, MILLION), p);
  }
}
