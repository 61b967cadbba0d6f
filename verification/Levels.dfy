/** The arithmetic of threat levels: the exponential thresholds, the level-up loop with its
    cap at the hard level, and the floor decay of experience points (XP). */
module Levels {

  function Pow(base: nat, exponent: nat): nat {
    if exponent == 0 then 1 else base * Pow(base, exponent - 1)
  }

  lemma PowPositive(base: nat, exponent: nat)
    requires base > 0
    ensures Pow(base, exponent) > 0
  {
    if exponent > 0 {
      PowPositive(base, exponent - 1);
    }
  }

  /** `num / den` rounded to the nearest integer, halves up, by repeated subtraction. */
  function RoundedQuotient(num: int, den: nat): (q: nat)
    requires den > 0
    decreases num
  {
    if 2 * num < den then 0 else 1 + RoundedQuotient(num - den, den)
  }

  lemma {:induction false} RoundedQuotientIsNearest(num: int, den: nat)
    requires den > 0 && 2 * num + den >= 0
    ensures (2 * RoundedQuotient(num, den) - 1) * den <= 2 * num < (2 * RoundedQuotient(num, den) + 1) * den
    decreases num
  {
    if 2 * num >= den {
      var q := RoundedQuotient(num - den, den);
      RoundedQuotientIsNearest(num - den, den);
      assert (2 * (q + 1) - 1) * den == (2 * q - 1) * den + 2 * den;
      assert (2 * (q + 1) + 1) * den == (2 * q + 1) * den + 2 * den;
    }
  }

  lemma RoundedQuotientAtLeast(num: nat, den: nat, k: nat)
    requires den > 0 && num >= k * den
    ensures RoundedQuotient(num, den) >= k
  {
    var q := RoundedQuotient(num, den);
    RoundedQuotientIsNearest(num, den);
    assert (2 * k) * den == 2 * (k * den);
    Cancel(2 * k, 2 * q + 1, den);
  }

  /** `round(10 * 1.6^level)` with 1.6 taken as the exact rational 8/5; negative levels count as 0. */
  function Threshold(level: int): (t: nat)
    ensures t >= 10
  {
    var l: nat := if level < 0 then 0 else level;
    PowPositive(5, l);
    PowGrows(l);
    RoundedQuotientAtLeast(10 * Pow(8, l), Pow(5, l), 10);
    RoundedQuotient(10 * Pow(8, l), Pow(5, l))
  }

  lemma {:induction false} PowGrows(l: nat)
    ensures Pow(8, l) >= Pow(5, l)
  {
    if l > 0 {
      PowGrows(l - 1);
    }
  }

  /** The threshold is the integer nearest to the exact value `10 * 8^l / 5^l`. */
  lemma ThresholdIsNearest(l: nat)
    ensures (2 * Threshold(l) - 1) * Pow(5, l) <= 20 * Pow(8, l) < (2 * Threshold(l) + 1) * Pow(5, l)
  {
    PowPositive(5, l);
    RoundedQuotientIsNearest(10 * Pow(8, l), Pow(5, l));
  }

  /** One level up raises the threshold, and at most doubles it. */
  lemma ThresholdStep(l: nat)
    ensures Threshold(l) < Threshold(l + 1) <= 2 * Threshold(l)
  {
    PowPositive(5, l);
    ThresholdIsNearest(l);
    ThresholdIsNearest(l + 1);
    NextThreshold(Threshold(l), Threshold(l + 1), Pow(5, l), Pow(8, l));
  }

  lemma NextThreshold(t: int, u: int, f: int, e: int)
    requires f > 0 && t >= 10
    requires (2 * t - 1) * f <= 20 * e < (2 * t + 1) * f
    requires (2 * u - 1) * (5 * f) <= 20 * (8 * e) < (2 * u + 1) * (5 * f)
    ensures t < u <= 2 * t
  {
    assert (10 * u - 5) * f <= 8 * (20 * e) < (10 * u + 5) * f;
    assert 8 * ((2 * t + 1) * f) == (16 * t + 8) * f;
    assert 8 * ((2 * t - 1) * f) == (16 * t - 8) * f;
    Cancel(10 * u - 5, 16 * t + 8, f);
    Cancel(16 * t - 8, 10 * u + 5, f);
  }

  lemma Cancel(a: int, b: int, f: int)
    requires f > 0 && a * f < b * f
    ensures a < b
  {
  }

  lemma {:induction false} ThresholdMonotone(a: int, b: int)
    requires a <= b
    ensures Threshold(a) <= Threshold(b)
    decreases b - a
  {
    if a < b {
      if a < 0 {
        ThresholdMonotone(a + 1, b);
      } else {
        ThresholdStep(a);
        ThresholdMonotone(a + 1, b);
      }
    }
  }

  lemma DefaultThresholds()
    ensures Threshold(0) == 10 && Threshold(1) == 16 && Threshold(2) == 26 && Threshold(3) == 41
    ensures Threshold(4) == 66 && Threshold(5) == 105 && Threshold(6) == 168
  {
    assert Pow(8, 1) == 8 && Pow(8, 2) == 64 && Pow(8, 3) == 512;
    assert Pow(8, 4) == 4096 && Pow(8, 5) == 32768 && Pow(8, 6) == 262144;
    assert Pow(5, 1) == 5 && Pow(5, 2) == 25 && Pow(5, 3) == 125;
    assert Pow(5, 4) == 625 && Pow(5, 5) == 3125 && Pow(5, 6) == 15625;
    forall l: nat | l <= 6 {
      ThresholdIsNearest(l);
    }
  }

  /** All the XP it takes to climb from level 0 to `level`. */
  function Below(level: int): nat {
    if level <= 0 then 0 else Below(level - 1) + Threshold(level - 1)
  }

  lemma {:induction false} BelowMonotone(a: nat, b: nat)
    requires a <= b
    ensures Below(a) <= Below(b)
    ensures a < b ==> Below(a) + Threshold(a) <= Below(b)
    decreases b - a
  {
    if a < b {
      BelowMonotone(a + 1, b);
    }
  }

  lemma DefaultBudget()
    ensures Below(6) == 264
  {
    DefaultThresholds();
    assert Below(1) == 10 && Below(2) == 26 && Below(3) == 52 && Below(4) == 93 && Below(5) == 159;
  }

  /** XP held plus XP already spent on levels. */
  function Potential(level: int, xp: int): int {
    xp + Below(level)
  }

  datatype Rank = Rank(level: int, xp: int)

  /** What the level-up loop leaves behind. */
  function Climb(r: Rank, hard: int): Rank
    decreases hard - r.level
  {
    if r.level >= hard || r.xp < Threshold(r.level) then r
    else Climb(Rank(r.level + 1, r.xp - Threshold(r.level)), hard)
  }

  /** XP is bounded by the hard level's threshold once that level is reached. */
  function Capped(r: Rank, hard: int): Rank {
    if r.level >= hard && r.xp > Threshold(hard) then r.(xp := Threshold(hard)) else r
  }

  /** The level-up loop followed by the cap. */
  function Settle(r: Rank, hard: int): Rank {
    Capped(Climb(r, hard), hard)
  }

  method LevelUp(r: Rank, hard: int) returns (s: Rank)
    ensures s == Settle(r, hard)
  {
    s := r;
    while !(s.level >= hard || s.xp < Threshold(s.level))
      invariant Climb(s, hard) == Climb(r, hard)
      decreases hard - s.level
    {
      s := Rank(s.level + 1, s.xp - Threshold(s.level));
    }
    if s.level >= hard && s.xp > Threshold(hard) {
      s := s.(xp := Threshold(hard));
    }
  }

  /** Climbing stops at the hard level or below the next threshold, and never goes down. */
  lemma {:induction false} ClimbRests(r: Rank, hard: int)
    ensures Climb(r, hard).level >= r.level
    ensures r.xp >= 0 ==> Climb(r, hard).xp >= 0
    ensures Climb(r, hard).level >= hard || Climb(r, hard).xp < Threshold(Climb(r, hard).level)
    ensures Climb(r, hard).level <= r.level || Climb(r, hard).level <= hard
    decreases hard - r.level
  {
    if r.level >= hard || r.xp < Threshold(r.level) {
    } else {
      ClimbRests(Rank(r.level + 1, r.xp - Threshold(r.level)), hard);
    }
  }

  /** Climbing conserves the potential: no XP is created or lost before the cap. */
  lemma {:induction false} ClimbConserves(r: Rank, hard: int)
    requires r.level >= 0
    ensures Potential(Climb(r, hard).level, Climb(r, hard).xp) == Potential(r.level, r.xp)
    decreases hard - r.level
  {
    if r.level >= hard || r.xp < Threshold(r.level) {
    } else {
      ClimbConserves(Rank(r.level + 1, r.xp - Threshold(r.level)), hard);
    }
  }

  /** Conservation pins the result down: among ranks that no longer climb, the potential
      determines level and XP. With `ClimbConserves` this characterises the loop without it. */
  lemma RestingRankIsUnique(a: Rank, b: Rank, hard: int)
    requires 0 <= a.level <= hard && 0 <= b.level <= hard && a.xp >= 0 && b.xp >= 0
    requires a.level == hard || a.xp < Threshold(a.level)
    requires b.level == hard || b.xp < Threshold(b.level)
    requires Potential(a.level, a.xp) == Potential(b.level, b.xp)
    ensures a == b
  {
    if a.level < b.level {
      BelowMonotone(a.level, b.level);
    } else if b.level < a.level {
      BelowMonotone(b.level, a.level);
    }
  }

  /** From below the hard level or at it, settling keeps all of the potential up to what the hard
      level can hold. With `RestingRankIsUnique` this determines level and XP. */
  lemma SettledPotential(r: Rank, hard: int)
    requires 0 <= r.level <= hard && r.xp >= 0
    ensures var s := Settle(r, hard);
            && r.level <= s.level <= hard && s.xp >= 0 && (s.level < hard ==> s.xp < Threshold(s.level))
            && Potential(s.level, s.xp) ==
               if Potential(r.level, r.xp) < Below(hard + 1) then Potential(r.level, r.xp) else Below(hard + 1)
  {
    var c := Climb(r, hard);
    ClimbConserves(r, hard);
    ClimbRests(r, hard);
    BelowMonotone(c.level, hard);
  }

  /** Climbing in two instalments is climbing once. */
  lemma {:induction false} ClimbInInstalments(r: Rank, b: nat, hard: int)
    ensures Climb(Climb(r, hard).(xp := Climb(r, hard).xp + b), hard) == Climb(r.(xp := r.xp + b), hard)
    decreases hard - r.level
  {
    if r.level >= hard || r.xp < Threshold(r.level) {
    } else {
      var next := Rank(r.level + 1, r.xp - Threshold(r.level));
      ClimbInInstalments(next, b, hard);
      assert next.(xp := next.xp + b) == Rank(r.level + 1, (r.xp + b) - Threshold(r.level));
    }
  }

  function Gain(r: Rank, amount: nat, hard: int): Rank {
    Settle(Rank(r.level, r.xp + amount), hard)
  }

  /** Levelling is path independent, cap included: gaining `a` and then `b` is gaining `a + b`. */
  lemma GainIsPathIndependent(r: Rank, a: nat, b: nat, hard: int)
    ensures Gain(Gain(r, a, hard), b, hard) == Gain(r, a + b, hard)
  {
    ClimbInInstalments(Rank(r.level, r.xp + a), b, hard);
    CapInInstalments(Climb(Rank(r.level, r.xp + a), hard), b, hard, Climb(Rank(r.level, r.xp + a + b), hard));
  }

  lemma CapInInstalments(c: Rank, b: nat, hard: int, total: Rank)
    requires Climb(c.(xp := c.xp + b), hard) == total
    ensures Settle(Capped(c, hard).(xp := Capped(c, hard).xp + b), hard) == Capped(total, hard)
  {
    var g := Capped(c, hard);
    if g != c {
      assert Climb(g.(xp := g.xp + b), hard) == g.(xp := g.xp + b);
      assert total == c.(xp := c.xp + b);
    }
  }

  /** One decay step: `floor(0.93 * xp)`, never below 0. */
  function DecayStep(xp: int): int {
    var d := 93 * xp / 100;
    if d < 0 then 0 else d
  }

  function Decay(xp: int, steps: nat): int
    decreases steps
  {
    if steps == 0 then xp else Decay(DecayStep(xp), steps - 1)
  }

  method DecayLoop(xp: int, steps: nat) returns (r: int)
    ensures r == Decay(xp, steps)
  {
    r := xp;
    for i := 0 to steps
      invariant Decay(r, steps - i) == Decay(xp, steps)
    {
      r := DecayStep(r);
    }
  }

  lemma {:induction false} DecayCompose(xp: int, a: nat, b: nat)
    ensures Decay(Decay(xp, a), b) == Decay(xp, a + b)
    decreases a
  {
    if a > 0 {
      DecayCompose(DecayStep(xp), a - 1, b);
    }
  }

  lemma {:induction false} DecayMonotone(x: int, y: int, steps: nat)
    requires 0 <= x <= y
    ensures 0 <= Decay(x, steps) <= Decay(y, steps) <= y
  {
    if steps > 0 {
      DecayMonotone(DecayStep(x), DecayStep(y), steps - 1);
    }
  }

  /** Five steps take away at least 30 percent. */
  lemma FiveSteps(x: nat)
    ensures 0 <= Decay(x, 5) && 10 * Decay(x, 5) <= 7 * x
  {
    var x1 := DecayStep(x);
    var x2 := DecayStep(x1);
    var x3 := DecayStep(x2);
    var x4 := DecayStep(x3);
    var x5 := DecayStep(x4);
    assert Decay(x4, 1) == x5 && Decay(x3, 2) == x5 && Decay(x2, 3) == x5 && Decay(x1, 4) == x5;
    assert 100 * x1 <= 93 * x && 100 * x2 <= 93 * x1 && 100 * x3 <= 93 * x2;
    assert 100 * x4 <= 93 * x3 && 100 * x5 <= 93 * x4;
  }

  /** XP within the threshold of its level, decayed for at least ten steps per level lost,
      is within the threshold of the level that remains. */
  lemma {:induction false} DecayOutpacesLevels(xp: int, level: nat, down: nat, steps: nat)
    requires 0 <= xp <= Threshold(level) && down <= level && steps >= 10 * down
    ensures 0 <= Decay(xp, steps) <= Threshold(level - down)
    decreases down
  {
    DecayMonotone(xp, xp, steps);
    if down > 0 {
      var once := Halving(xp, steps);
      ThresholdStep(level - 1);
      DecayOutpacesLevels(once, level - 1, down - 1, steps - 10);
    }
  }

  lemma Halving(x: nat, steps: nat) returns (y: nat)
    requires steps >= 10
    ensures Decay(x, steps) == Decay(y, steps - 10) && 2 * y <= x
  {
    var z := FiveOff(x, steps);
    y := FiveOff(z, steps - 5);
  }

  /** 72 idle hours are at least 144 steps. They wipe out all the XP a level up to 21 can hold. */
  lemma ColdAfter144Steps(xp: nat, level: int, steps: nat)
    requires xp <= Threshold(level) && level <= 21 && steps >= 144
    ensures Decay(xp, steps) == 0
  {
    ThresholdMonotone(level, 21);
    HighThresholds();
    var x1 := TwentyFiveSteps(xp, steps);
    var x2 := TwentyFiveSteps(x1, steps - 25);
    var x3 := TwentyFiveSteps(x2, steps - 50);
    var x4 := TwentyFiveSteps(x3, steps - 75);
    var x5 := TwentyFiveSteps(x4, steps - 100);
    TwentyFiveDiesOut(x5, steps - 125);
  }

  lemma TwentyFiveDiesOut(x: nat, steps: nat)
    requires x <= 25 && steps >= 19
    ensures Decay(x, steps) == 0
  {
    SixSteps(25, 23, 21, 19, 17, 15, 13, steps);
    SmallXPDiesOut(13, steps - 6);
    DecayMonotone(x, 25, steps);
  }

  /** They do not wipe out what level 22 can hold. */
  lemma WarmAfter144Steps(steps: nat)
    requires steps == 144
    ensures Decay(Threshold(22), steps) == 2
  {
    HighThresholds();
    DecayFrom309485(steps);
    DecayFrom9496(steps - 48);
    DecayFrom285(steps - 96);
  }

  lemma DecayFrom309485(steps: nat)
    requires steps >= 48
    ensures Decay(309485, steps) == Decay(9496, steps - 48)
  {
    SixSteps(309485, 287821, 267673, 248935, 231509, 215303, 200231, steps);
    SixSteps(200231, 186214, 173179, 161056, 149782, 139297, 129546, steps - 6);
    SixSteps(129546, 120477, 112043, 104199, 96905, 90121, 83812, steps - 12);
    SixSteps(83812, 77945, 72488, 67413, 62694, 58305, 54223, steps - 18);
    SixSteps(54223, 50427, 46897, 43614, 40561, 37721, 35080, steps - 24);
    SixSteps(35080, 32624, 30340, 28216, 26240, 24403, 22694, steps - 30);
    SixSteps(22694, 21105, 19627, 18253, 16975, 15786, 14680, steps - 36);
    SixSteps(14680, 13652, 12696, 11807, 10980, 10211, 9496, steps - 42);
  }

  lemma DecayFrom9496(steps: nat)
    requires steps >= 48
    ensures Decay(9496, steps) == Decay(285, steps - 48)
  {
    SixSteps(9496, 8831, 8212, 7637, 7102, 6604, 6141, steps);
    SixSteps(6141, 5711, 5311, 4939, 4593, 4271, 3972, steps - 6);
    SixSteps(3972, 3693, 3434, 3193, 2969, 2761, 2567, steps - 12);
    SixSteps(2567, 2387, 2219, 2063, 1918, 1783, 1658, steps - 18);
    SixSteps(1658, 1541, 1433, 1332, 1238, 1151, 1070, steps - 24);
    SixSteps(1070, 995, 925, 860, 799, 743, 690, steps - 30);
    SixSteps(690, 641, 596, 554, 515, 478, 444, steps - 36);
    SixSteps(444, 412, 383, 356, 331, 307, 285, steps - 42);
  }

  lemma DecayFrom285(steps: nat)
    requires steps >= 48
    ensures Decay(285, steps) == Decay(2, steps - 48)
  {
    SixSteps(285, 265, 246, 228, 212, 197, 183, steps);
    SixSteps(183, 170, 158, 146, 135, 125, 116, steps - 6);
    SixSteps(116, 107, 99, 92, 85, 79, 73, steps - 12);
    SixSteps(73, 67, 62, 57, 53, 49, 45, steps - 18);
    SixSteps(45, 41, 38, 35, 32, 29, 26, steps - 24);
    SixSteps(26, 24, 22, 20, 18, 16, 14, steps - 30);
    SixSteps(14, 13, 12, 11, 10, 9, 8, steps - 36);
    SixSteps(8, 7, 6, 5, 4, 3, 2, steps - 42);
  }

  /** One decay step takes `x` to `y`. */
  predicate Link(x: int, y: int) {
    0 <= 100 * y <= 93 * x < 100 * y + 100
  }

  lemma OneStep(x: int, y: int, steps: nat)
    requires Link(x, y) && steps >= 1
    ensures Decay(x, steps) == Decay(y, steps - 1)
  {
    assert DecayStep(x) == y;
  }

  lemma SixSteps(a: int, b: int, c: int, d: int, e: int, f: int, g: int, steps: nat)
    requires Link(a, b) && Link(b, c) && Link(c, d) && Link(d, e) && Link(e, f) && Link(f, g) && steps >= 6
    ensures Decay(a, steps) == Decay(g, steps - 6)
  {
    OneStep(a, b, steps);
    OneStep(b, c, steps - 1);
    OneStep(c, d, steps - 2);
    OneStep(d, e, steps - 3);
    OneStep(e, f, steps - 4);
    OneStep(f, g, steps - 5);
  }

  /** At any level, 72 idle hours for each level and for a start wipe out the XP. */
  lemma ColdInTime(xp: nat, level: nat, steps: nat)
    requires xp <= Threshold(level) && steps >= 144 && steps >= 144 * level
    ensures Decay(xp, steps) == 0
  {
    if level <= 21 {
      ColdAfter144Steps(xp, level, steps);
    } else {
      var down := level - 21;
      DecayOutpacesLevels(xp, level, down, 10 * down);
      DecayCompose(xp, 10 * down, steps - 10 * down);
      ColdAfter144Steps(Decay(xp, 10 * down), 21, steps - 10 * down);
    }
  }

  lemma HighThresholds()
    ensures Threshold(21) == 193428 && Threshold(22) == 309485
  {
    assert Pow(8, 10) == 1073741824 && Pow(5, 10) == 9765625;
    assert Pow(8, 20) == 1152921504606846976 && Pow(5, 20) == 95367431640625;
    ThresholdIsNearest(21);
    ThresholdIsNearest(22);
  }

  lemma TwentyFiveSteps(x: nat, steps: nat) returns (y: nat)
    requires steps >= 25
    ensures Decay(x, steps) == Decay(y, steps - 25)
    ensures 100000 * y <= 16807 * x
  {
    var y1 := FiveOff(x, steps);
    var y2 := FiveOff(y1, steps - 5);
    var y3 := FiveOff(y2, steps - 10);
    var y4 := FiveOff(y3, steps - 15);
    y := FiveOff(y4, steps - 20);
  }

  lemma FiveOff(x: nat, steps: nat) returns (y: nat)
    requires steps >= 5
    ensures Decay(x, steps) == Decay(y, steps - 5)
    ensures 10 * y <= 7 * x
  {
    FiveSteps(x);
    DecayCompose(x, 5, steps - 5);
    y := Decay(x, 5);
  }

  lemma {:induction false} SmallXPDiesOut(x: nat, steps: nat)
    requires x <= steps
    ensures Decay(x, steps) == 0
    decreases steps
  {
    if steps > 0 {
      SmallXPDiesOut(DecayStep(x), steps - 1);
    }
  }
}
