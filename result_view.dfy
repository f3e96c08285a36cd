/**
  The result card (frontend/src/components/ResultView.jsx): the rounded
  percentage, the letter grade and the text offered for sharing.
*/
module ResultView {
  import opened Strings

  function Abs(x: int): nat {
    if x < 0 then -x else x
  }

  /**
    `total ? Math.round((score / total) * 100) : 0`, with the quotient taken
    exactly: `Math.round` goes to the nearest integer and halves go up.
  */
  function Percent(score: int, total: int): (p: int)
    ensures total == 0 ==> p == 0
    ensures total != 0 ==>
      var n, d := if total > 0 then 100 * score else -100 * score, Abs(total);
      2 * d * p <= 2 * n + d < 2 * d * p + 2 * d
  {
    if total == 0 then 0
    else
      var n, d := if total > 0 then 100 * score else -100 * score, Abs(total);
      (2 * n + d) / (2 * d)
  }

  /** Cancelling a positive factor from a strict inequality. */
  lemma CancelLess(d: int, x: int, y: int)
    requires d > 0 && d * x < d * y
    ensures x < y
  {
  }

  /** A score between nothing and everything gives a percent between 0 and 100, and full marks give 100. */
  lemma PercentBounds(score: int, total: int)
    requires 0 <= score <= total && total > 0
    ensures 0 <= Percent(score, total) <= 100
    ensures score == total ==> Percent(score, total) == 100
    ensures score == 0 ==> Percent(score, total) == 0
  {
    var p, d := Percent(score, total), total;
    assert 2 * d * p <= 200 * score + d < 2 * d * p + 2 * d;
    assert d * (2 * p) == 2 * d * p && d * (2 * p + 2) == 2 * d * p + 2 * d;
    assert 200 * score <= 200 * d;
    CancelLess(d, 0, 2 * p + 2);
    CancelLess(d, 2 * p, 202);
    if score == total {
      CancelLess(d, 201, 2 * p + 2);
    }
    if score == 0 {
      CancelLess(d, 2 * p, 2);
    }
  }

  /** More points out of the same total never give a lower percent. */
  lemma PercentMonotone(s1: int, s2: int, total: int)
    requires s1 <= s2 && total > 0
    ensures Percent(s1, total) <= Percent(s2, total)
  {
    var p1, p2, d := Percent(s1, total), Percent(s2, total), total;
    assert 2 * d * p1 <= 200 * s1 + d;
    assert 200 * s2 + d < 2 * d * p2 + 2 * d;
    assert d * (2 * p1) == 2 * d * p1 && d * (2 * p2 + 2) == 2 * d * p2 + 2 * d;
    CancelLess(d, 2 * p1, 2 * p2 + 2);
  }

  datatype Grade = A | B | C | D | F {
    function Letter(): string {
      match this
      case A => "A"
      case B => "B"
      case C => "C"
      case D => "D"
      case F => "F"
    }

    /** Larger is better. */
    function Rank(): nat {
      match this
      case A => 4
      case B => 3
      case C => 2
      case D => 1
      case F => 0
    }
  }

  /** The grade bands: 90 and above, 80s, 70s, 60s, below 60. */
  function GradeOf(percent: int): (g: Grade)
    ensures g == A <==> percent >= 90
    ensures g == B <==> 80 <= percent < 90
    ensures g == C <==> 70 <= percent < 80
    ensures g == D <==> 60 <= percent < 70
    ensures g == F <==> percent < 60
  {
    if percent >= 90 then A
    else if percent >= 80 then B
    else if percent >= 70 then C
    else if percent >= 60 then D
    else F
  }

  /** A higher percent never earns a worse grade. */
  lemma GradeMonotone(p1: int, p2: int)
    requires p1 <= p2
    ensures GradeOf(p1).Rank() <= GradeOf(p2).Rank()
  {
  }

  /** The share text around the three numbers, as decimal texts. */
  function ShareWith(score: string, total: string, percent: string): string {
    "I scored " + score + "/" + total + " (" + percent + "%) on this quiz!"
  }

  /** The text `handleShare` shares, copies or mails. */
  function ShareText(score: int, total: int): string {
    ShareWith(Dec(score), Dec(total), Dec(Percent(score, total)))
  }

  /** The share text, read from its start: the prefix, the score, then the rest after the score. */
  lemma ShareWithParts(a: string, b: string, c: string)
    ensures ShareWith(a, b, c) == "I scored " + (a + ("/" + (b + (" (" + c + "%) on this quiz!"))))
  {
  }

  /** Different results never share the same text: the score and the total can be read back from it. */
  lemma {:induction false} ShareTextInjective(s1: nat, t1: nat, s2: nat, t2: nat)
    requires ShareText(s1, t1) == ShareText(s2, t2)
    ensures s1 == s2 && t1 == t2
  {
    var prefix := "I scored ";
    var c1, c2 := Dec(Percent(s1, t1)), Dec(Percent(s2, t2));
    var u1, u2 := " (" + c1 + "%) on this quiz!", " (" + c2 + "%) on this quiz!";
    var r1, r2 := "/" + (NatDigits(t1) + u1), "/" + (NatDigits(t2) + u2);
    ShareWithParts(NatDigits(s1), NatDigits(t1), c1);
    ShareWithParts(NatDigits(s2), NatDigits(t2), c2);
    var w1, w2 := NatDigits(s1) + r1, NatDigits(s2) + r2;
    assert prefix + w1 == prefix + w2;
    assert w1 == (prefix + w1)[|prefix|..];
    assert w2 == (prefix + w2)[|prefix|..];
    DigitsPrefixUnique(s1, s2, r1, r2);
    assert r1[1..] == NatDigits(t1) + u1;
    assert r2[1..] == NatDigits(t2) + u2;
    DigitsPrefixUnique(t1, t2, u1, u2);
  }
}
