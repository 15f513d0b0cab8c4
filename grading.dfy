/**
 * The result screen's arithmetic: the rounded percentage and the letter grade
 * with its feedback line.
 */
module Grading {
  import opened Wrappers

  datatype Grade = APlus | A | B | C | D

  /**
   * `Math.round(score / total * 100)` read as exact arithmetic: the nearest
   * integer to 100 * score / total, halves rounded up.
   */
  function Percent(score: nat, total: nat): (p: nat)
    requires total > 0
    ensures 2 * total * p <= 200 * score + total < 2 * total * p + 2 * total
    ensures score <= total ==> p <= 100
  {
    var p := (200 * score + total) / (2 * total);
    DivBounds(200 * score + total, 2 * total);
    assert score <= total ==> p <= 100 by {
      if score <= total && p > 100 {
        MulMonotone(2 * total, 101, p);
      }
    }
    p
  }

  lemma DivBounds(n: nat, d: nat)
    requires d > 0
    ensures d * (n / d) <= n < d * (n / d) + d
  {
  }

  /** The threshold chain of the result screen. */
  function GradeOf(percent: nat): (g: Grade)
    ensures g == APlus <==> percent == 100
    ensures g == D <==> percent < 40
    ensures 40 <= percent < 100 ==> Rank(g) == percent / 20 - 1
  {
    if percent == 100 then APlus
    else if percent >= 80 then A
    else if percent >= 60 then B
    else if percent >= 40 then C
    else D
  }

  function Feedback(g: Grade): (f: string)
    ensures f == "Perfect! \U{1F389}" <==> g == APlus
  {
    match g
    case APlus => "Perfect! \U{1F389}"
    case A => "Great job!"
    case B => "Good effort!"
    case C => "Keep practicing!"
    case D => "Try again!"
  }

  /** Position of a grade, D lowest. */
  function Rank(g: Grade): nat
  {
    match g
    case D => 0
    case C => 1
    case B => 2
    case A => 3
    case APlus => 4
  }

  /** What the result screen shows; `percent` is None where the source computes NaN. */
  datatype Summary = Summary(score: nat, total: nat, percent: Option<nat>, grade: Grade, feedback: string)

  /** `showResult`'s computation. An empty quiz divides 0 by 0: NaN fails every threshold and lands on D. */
  function Summarize(score: nat, total: nat): (r: Summary)
    ensures r.score == score && r.total == total
    ensures r.feedback == Feedback(r.grade)
    ensures total == 0 <==> r.percent == None
    ensures total == 0 ==> r.grade == D
    ensures total > 0 ==> r.percent == Some(Percent(score, total)) && r.grade == GradeOf(Percent(score, total))
  {
    if total == 0 then Summary(score, total, None, D, Feedback(D))
    else
      var p := Percent(score, total);
      Summary(score, total, Some(p), GradeOf(p), Feedback(GradeOf(p)))
  }

  lemma MulMonotone(t: nat, a: nat, b: nat)
    requires a <= b
    ensures t * a <= t * b
  {
  }

  /** The rounded percentage reaches `n` exactly when 100 * score / total + 1/2 does. */
  lemma PercentAtLeast(score: nat, total: nat, n: nat)
    requires total > 0
    ensures Percent(score, total) >= n <==> 200 * score + total >= 2 * total * n
  {
    var p := Percent(score, total);
    if p >= n {
      MulMonotone(2 * total, n, p);
    } else {
      MulMonotone(2 * total, p + 1, n);
    }
  }

  /** The grade read directly off the fraction of correct answers, rounding included. */
  lemma GradeByRatio(score: nat, total: nat)
    requires 0 < total && score <= total
    ensures GradeOf(Percent(score, total)) == APlus <==> 200 * score >= 199 * total
    ensures GradeOf(Percent(score, total)) == A <==> 159 * total <= 200 * score < 199 * total
    ensures GradeOf(Percent(score, total)) == B <==> 119 * total <= 200 * score < 159 * total
    ensures GradeOf(Percent(score, total)) == C <==> 79 * total <= 200 * score < 119 * total
    ensures GradeOf(Percent(score, total)) == D <==> 200 * score < 79 * total
  {
    PercentAtLeast(score, total, 100);
    PercentAtLeast(score, total, 80);
    PercentAtLeast(score, total, 60);
    PercentAtLeast(score, total, 40);
  }

  /** The exact fractions at the grade boundaries: 1 gives A+, 4/5 gives A, 3/5 gives B, 2/5 gives C. */
  lemma GradeBoundaries(score: nat, total: nat)
    requires 0 < total && score <= total
    ensures score == total ==> Summarize(score, total).grade == APlus
    ensures score == total ==> Summarize(score, total).feedback == "Perfect! \U{1F389}"
    ensures 5 * score == 4 * total ==> Summarize(score, total).grade == A
    ensures 5 * score == 3 * total ==> Summarize(score, total).grade == B
    ensures 5 * score == 2 * total ==> Summarize(score, total).grade == C
  {
    GradeByRatio(score, total);
  }

  /** One more correct answer never lowers the grade. */
  lemma GradeMonotone(s1: nat, s2: nat, total: nat)
    requires 0 < total && s1 <= s2 <= total
    ensures Rank(GradeOf(Percent(s1, total))) <= Rank(GradeOf(Percent(s2, total)))
  {
    GradeByRatio(s1, total);
    GradeByRatio(s2, total);
  }
}
