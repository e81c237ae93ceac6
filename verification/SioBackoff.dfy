// How long a Socket.IO client waits before it tries to connect again. Delays are in milliseconds and
// the arithmetic is exact.
module SioBackoff {
  datatype Delays = Delays(delay: nat, delayMax: nat)

  predicate Ordered(d: Delays) { d.delay <= d.delayMax }

  // The setters keep the delay at most the maximum by moving the other of the two.
  function SetDelay(d: Delays, millis: nat): Delays {
    Delays(millis, if d.delayMax < millis then millis else d.delayMax)
  }

  function SetDelayMax(d: Delays, millis: nat): Delays {
    Delays(if d.delay > millis then millis else d.delay, millis)
  }

  const DEFAULT := Delays(5000, 25000)

  datatype Setting = Delay(millis: nat) | DelayMax(millis: nat)

  function AppliedOne(d: Delays, setting: Setting): Delays {
    match setting
    case Delay(millis) => SetDelay(d, millis)
    case DelayMax(millis) => SetDelayMax(d, millis)
  }

  function Applied(d: Delays, settings: seq<Setting>): Delays
    decreases |settings|
  {
    if settings == [] then d
    else
      Applied(AppliedOne(d, settings[0]), settings[1..])
  }

  lemma {:induction false} AppliedOrdered(d: Delays, settings: seq<Setting>)
    requires Ordered(d)
    ensures Ordered(Applied(d, settings))
    decreases |settings|
  {
    if settings != [] {
      AppliedOrdered(AppliedOne(d, settings[0]), settings[1..]);
    }
  }

  // 1.5 to the power of n.
  function Pow(n: nat): (r: real)
    ensures r >= 1.0
  {
    if n == 0 then 1.0 else 1.5 * Pow(n - 1)
  }

  function Min(a: nat, b: nat): nat { if a < b then a else b }

  // The delay before the truncation.
  function Exact(d: Delays, made: nat): (r: real)
    ensures r >= 0.0
  {
    Clip(Scale(d.delay as real, Pow(Min(made, 32))), d.delayMax as real)
  }

  function Scale(x: real, a: real): (r: real)
    requires x >= 0.0 && a >= 1.0
    ensures r >= x
  {
    ScaleGrows(x, 1.0, a);
    x * a
  }

  function Clip(x: real, limit: real): real { if x < limit then x else limit }

  function NextDelay(d: Delays, made: nat): nat { Exact(d, made).Floor }

  lemma PowGrows(m: nat, n: nat)
    requires m <= n
    ensures Pow(m) <= Pow(n)
  {
    if m < n {
      PowGrows(m, n - 1);
    }
  }

  lemma ScaleGrows(x: real, a: real, b: real)
    requires x >= 0.0 && a <= b
    ensures x * a <= x * b
  {}

  lemma FloorGrows(a: real, b: real)
    requires a <= b
    ensures a.Floor <= b.Floor
  {}

  lemma ExactStarts(d: Delays, made: nat)
    requires Ordered(d)
    ensures d.delay as real <= Exact(d, made) <= d.delayMax as real
  {}

  lemma ExactGrows(d: Delays, made: nat, later: nat)
    requires made <= later
    ensures Exact(d, made) <= Exact(d, later)
  {
    PowGrows(Min(made, 32), Min(later, 32));
    var x, a, b := d.delay as real, Pow(Min(made, 32)), Pow(Min(later, 32));
    ScaleGrows(x, a, b);
    assert Scale(x, a) <= Scale(x, b);
  }

  // After any settings the wait is between the delay and the maximum, never gets shorter from one
  // attempt to the next, and from 32 attempts on stays what it is.
  lemma NextDelayBounds(settings: seq<Setting>, made: nat, later: nat)
    requires made <= later
    ensures var d := Applied(DEFAULT, settings);
            && d.delay <= NextDelay(d, made) <= NextDelay(d, later) <= d.delayMax
            && (made >= 32 ==> NextDelay(d, made) == NextDelay(d, 32))
  {
    var d := Applied(DEFAULT, settings);
    AppliedOrdered(DEFAULT, settings);
    ExactStarts(d, made);
    ExactGrows(d, made, later);
    FloorGrows(d.delay as real, Exact(d, made));
    FloorGrows(Exact(d, made), Exact(d, later));
    ExactStarts(d, later);
    FloorGrows(Exact(d, later), d.delayMax as real);
    assert (d.delay as real).Floor == d.delay && (d.delayMax as real).Floor == d.delayMax;
  }

  // ----- what the delay is

  function Power(base: nat, n: nat): (p: nat)
    ensures base > 0 ==> p > 0
  {
    if n == 0 then 1
    else
      var rest := Power(base, n - 1);
      assert base > 0 ==> base * rest > 0;
      base * rest
  }

  lemma {:induction false} PowIsFraction(n: nat)
    ensures Pow(n) * (Power(2, n) as real) == Power(3, n) as real
  {
    if n > 0 {
      PowIsFraction(n - 1);
      ThreeHalves(Pow(n - 1), Power(2, n - 1), Power(3, n - 1));
    }
  }

  lemma ThreeHalves(p: real, two: nat, three: nat)
    requires p * (two as real) == three as real
    ensures (1.5 * p) * ((2 * two) as real) == (3 * three) as real
  {
    var t := two as real;
    assert (2 * two) as real == 2.0 * t;
    assert (1.5 * p) * (2.0 * t) == 3.0 * (p * t);
  }

  lemma FractionCompares(x: real, a: nat, b: nat, q: nat)
    requires b > 0 && x * (b as real) == a as real
    ensures x < q as real <==> a < q * b
  {
    var r := b as real;
    assert (q as real) * r == (q * b) as real;
    if x < q as real {
      Below(x, q as real, r);
    } else {
      ScaleGrows(r, q as real, x);
    }
  }

  lemma FloorOfFraction(x: real, a: nat, b: nat)
    requires b > 0 && x * (b as real) == a as real
    ensures x.Floor == a / b
  {
    var q := a / b;
    assert q * b <= a < (q + 1) * b;
    FractionCompares(x, a, b, q);
    FractionCompares(x, a, b, q + 1);
  }

  lemma Below(x: real, y: real, b: real)
    requires x < y && b > 0.0
    ensures x * b < y * b
  {
    assert (y - x) * b > 0.0;
  }

  lemma ScaledFraction(delay: nat, n: nat)
    ensures Scale(delay as real, Pow(n)) * (Power(2, n) as real) == (delay * Power(3, n)) as real
  {
    PowIsFraction(n);
    Regroup(delay as real, Pow(n), Power(2, n) as real);
    assert (delay as real) * (Power(3, n) as real) == (delay * Power(3, n)) as real;
  }

  lemma Regroup(x: real, y: real, z: real)
    ensures (x * y) * z == x * (y * z)
  {}

  lemma GrownIs(delay: nat, n: nat)
    ensures Scale(delay as real, Pow(n)).Floor == delay * Power(3, n) / Power(2, n)
  {
    ScaledFraction(delay, n);
    FloorOfFraction(Scale(delay as real, Pow(n)), delay * Power(3, n), Power(2, n));
  }

  // The wait is the delay times three halves for every attempt made, rounded down, or the maximum.
  lemma NextDelayIs(d: Delays, made: nat)
    ensures var n := if made < 32 then made else 32;
            var grown := d.delay * Power(3, n) / Power(2, n);
            NextDelay(d, made) == if grown < d.delayMax then grown else d.delayMax
  {
    var n := Min(made, 32);
    GrownIs(d.delay, n);
    ClipFloor(Scale(d.delay as real, Pow(n)), d.delayMax);
  }

  lemma ClipFloor(x: real, limit: nat)
    ensures Clip(x, limit as real).Floor == if x.Floor < limit then x.Floor else limit
  {}

  // A setter sets its own value, and moves the other only as far as it must.
  lemma SettersMoveLittle(d: Delays, millis: nat)
    requires Ordered(d)
    ensures var e := SetDelay(d, millis);
            e.delay == millis && e.delayMax == if millis <= d.delayMax then d.delayMax else millis
    ensures var e := SetDelayMax(d, millis);
            e.delayMax == millis && e.delay == if d.delay <= millis then d.delay else millis
  {}

  // With settings that fit an unsigned int, so does the wait.
  lemma NextDelayFits(settings: seq<Setting>, made: nat)
    requires forall i | 0 <= i < |settings| :: settings[i].millis < 0x1_0000_0000
    ensures NextDelay(Applied(DEFAULT, settings), made) < 0x1_0000_0000
  {
    NextDelayBounds(settings, made, made);
    AppliedFits(DEFAULT, settings);
  }

  lemma {:induction false} AppliedFits(d: Delays, settings: seq<Setting>)
    requires d.delay < 0x1_0000_0000 && d.delayMax < 0x1_0000_0000
    requires forall i | 0 <= i < |settings| :: settings[i].millis < 0x1_0000_0000
    ensures Applied(d, settings).delayMax < 0x1_0000_0000
    decreases |settings|
  {
    if settings != [] {
      AppliedFits(AppliedOne(d, settings[0]), settings[1..]);
    }
  }
}
