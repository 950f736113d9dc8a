/**
 * The XP calculator: base XP of one completed activity from its duration,
 * difficulty and focus flag. Multipliers are exact hundredths.
 */
module XpCalc {

  /** Rounds num / den to the nearest integer, halves going up (the rule of Math.round). */
  function RoundHalfUp(num: int, den: int): int
    requires den > 0
  {
    (2 * num + den) / (2 * den)
  }

  /** The rounded value is the integer nearest to num / den, ties resolved upwards. */
  lemma RoundHalfUpSpec(num: int, den: int)
    requires den > 0
    ensures 2 * den * RoundHalfUp(num, den) - den <= 2 * num < 2 * den * RoundHalfUp(num, den) + den
  {
  }

  /** Rounding keeps the order of its numerators. */
  lemma RoundHalfUpMonotonic(a: int, b: int, den: int)
    requires den > 0 && a <= b
    ensures RoundHalfUp(a, den) <= RoundHalfUp(b, den)
  {
    var ra, rb := RoundHalfUp(a, den), RoundHalfUp(b, den);
    RoundHalfUpSpec(a, den);
    RoundHalfUpSpec(b, den);
    assert den * ra < den * (rb + 1);
    PositiveFactorCancels(den, ra, rb + 1);
  }

  lemma PositiveFactorCancels(k: int, x: int, y: int)
    requires k > 0 && k * x < k * y
    ensures x < y
  {
    assert k * (y - x) > 0;
  }

  /** Difficulty multiplier in hundredths; any other label counts as easy. */
  function DifficultyPercent(difficulty: string): (p: int)
    ensures p == 135 || p == 115 || p == 100
    ensures difficulty == "dificil" <==> p == 135
    ensures difficulty == "medio" <==> p == 115
  {
    if difficulty == "dificil" then 135 else if difficulty == "medio" then 115 else 100
  }

  /** Focus ("no distractions") multiplier in hundredths. */
  function FocusPercent(noDistraction: bool): int
  {
    if noDistraction then 120 else 100
  }

  /** Duration clamped to at least one minute, two XP per minute, capped at 240. */
  function BaseXp(minutes: int): (b: int)
    ensures 2 <= b <= 240
    ensures minutes <= 120 ==> b == 2 * (if minutes < 1 then 1 else minutes)
    ensures minutes >= 120 ==> b == 240
  {
    var m := if minutes < 1 then 1 else minutes;
    if m * 2 < 240 then m * 2 else 240
  }

  /** Base XP of a completed activity. */
  function ComputeXP(minutes: int, difficulty: string, noDistraction: bool): (xp: int)
    ensures 2 <= xp <= 389
    ensures 20000 * xp - 10000
            <= 2 * BaseXp(minutes) * DifficultyPercent(difficulty) * FocusPercent(noDistraction)
            < 20000 * xp + 10000
  {
    var b, d, f := BaseXp(minutes), DifficultyPercent(difficulty), FocusPercent(noDistraction);
    BoundedProduct(b, d, f);
    RoundHalfUpSpec(b * d * f, 10000);
    RoundHalfUp(b * d * f, 10000)
  }

  lemma BoundedProduct(b: int, d: int, f: int)
    requires 2 <= b <= 240 && 100 <= d <= 135 && 100 <= f <= 120
    ensures 20000 <= b * d * f <= 3888000
  {
    assert 200 <= b * d <= 32400;
    assert 20000 <= (b * d) * f <= 3888000;
  }

  /** Worked values of the XP formula (none of them lies near a rounding tie). */
  lemma ComputeXPExamples()
    ensures ComputeXP(30, "facil", false) == 60
    ensures ComputeXP(30, "dificil", true) == 97
    ensures ComputeXP(1, "facil", false) == 2
    ensures ComputeXP(1000, "facil", false) == 240
    ensures ComputeXP(20, "medio", false) == 46
  {
  }

  /** Durations under one minute count as one minute; durations past two hours add nothing. */
  lemma ComputeXPClamps(minutes: int, difficulty: string, noDistraction: bool)
    ensures minutes <= 1 ==> ComputeXP(minutes, difficulty, noDistraction) == ComputeXP(1, difficulty, noDistraction)
    ensures minutes >= 120 ==> ComputeXP(minutes, difficulty, noDistraction) == ComputeXP(120, difficulty, noDistraction)
  {
  }

  /** An unknown difficulty label earns exactly what "facil" earns. */
  lemma UnknownDifficultyIsEasy(minutes: int, difficulty: string, noDistraction: bool)
    requires difficulty != "dificil" && difficulty != "medio"
    ensures ComputeXP(minutes, difficulty, noDistraction) == ComputeXP(minutes, "facil", noDistraction)
  {
  }

  /** More minutes, a harder tier or the focus flag never earn less. */
  lemma ComputeXPMonotonic(m1: int, m2: int, d1: string, d2: string, f1: bool, f2: bool)
    requires m1 <= m2
    requires DifficultyPercent(d1) <= DifficultyPercent(d2)
    requires f1 ==> f2
    ensures ComputeXP(m1, d1, f1) <= ComputeXP(m2, d2, f2)
  {
    var b1, b2 := BaseXp(m1), BaseXp(m2);
    var p1, p2 := DifficultyPercent(d1), DifficultyPercent(d2);
    var q1, q2 := FocusPercent(f1), FocusPercent(f2);
    assert b1 <= b2;
    assert b1 * p1 <= b2 * p2 by {
      assert b1 * p1 <= b2 * p1;
      assert b2 * p1 <= b2 * p2;
    }
    assert (b1 * p1) * q1 <= (b2 * p2) * q2 by {
      assert (b1 * p1) * q1 <= (b2 * p2) * q1;
      assert (b2 * p2) * q1 <= (b2 * p2) * q2;
    }
    BoundedProduct(b1, p1, q1);
    BoundedProduct(b2, p2, q2);
    RoundHalfUpMonotonic(b1 * p1 * q1, b2 * p2 * q2, 10000);
  }
}
