/**
  The SM-2 score update of SuperMemo: a recall quality in 0..5 and the
  prior score of an entry give its next repetition count, ease factor and
  interval (in days). Ease factors and qualities are exact reals here;
  `Math.round` is rounding half up.
*/
module Scheduler {

  /** The scheduling parameters of one entry. */
  datatype Score = Score(id: string, repetitions: int, easeFactor: real, interval: int)

  /** The ease factor never drops below this floor. */
  const EaseFloor: real := 1.3

  /** A score as the scheduler keeps it: no negative count, ease at or above the floor, interval of at least a day. */
  predicate ValidScore(s: Score) {
    s.repetitions >= 0 && s.easeFactor >= EaseFloor && s.interval >= 1
  }

  /** `Math.round`: the integer nearest to `x`, halves rounded up. */
  function Round(x: real): (r: int)
    ensures r as real - 0.5 <= x < r as real + 0.5
  {
    (x + 0.5).Floor
  }

  /** The change the SM-2 formula makes to the ease factor for quality `q`, before the floor. */
  function EaseDelta(q: real): real {
    0.1 - (5.0 - q) * (0.08 + (5.0 - q) * 0.02)
  }

  /** The SM-2 update. */
  function Sm2(quality: real, s: Score): (r: Score)
    ensures r.id == s.id
    ensures r.easeFactor >= EaseFloor
    ensures r.easeFactor == if s.easeFactor + EaseDelta(quality) < EaseFloor then EaseFloor
                            else s.easeFactor + EaseDelta(quality)
    ensures quality >= 3.0 ==> r.repetitions == s.repetitions + 1
    ensures quality >= 3.0 && s.repetitions == 0 ==> r.interval == 1
    ensures quality >= 3.0 && s.repetitions == 1 ==> r.interval == 6
    ensures quality >= 3.0 && s.repetitions != 0 && s.repetitions != 1 ==>
              r.interval == Round(s.interval as real * s.easeFactor)
    ensures quality < 3.0 ==> r.repetitions == 0 && r.interval == 1
  {
    var (repetitions, interval) :=
      if quality >= 3.0 then
        (s.repetitions + 1,
         if s.repetitions == 0 then 1
         else if s.repetitions == 1 then 6
         else Round(s.interval as real * s.easeFactor))
      else (0, 1);
    var easeFactor := s.easeFactor + EaseDelta(quality);
    Score(s.id, repetitions, if easeFactor < EaseFloor then EaseFloor else easeFactor, interval)
  }

  /**
    The quality the study session derives from a grade: 0 (easiest) is 5, 3
    (hardest) is 0. A grade in 0..3 gives a quality in 0..5, and recall counts
    as a pass exactly for grades up to 1.2, so of the whole grades 0 and 1 pass
    and 2 and 3 lapse.
  */
  function Quality(grade: real): (q: real)
    ensures 0.0 <= grade <= 3.0 ==> 0.0 <= q <= 5.0
    ensures q >= 3.0 <==> grade <= 1.2
    ensures grade == 0.0 ==> q == 5.0
    ensures grade == 3.0 ==> q == 0.0
  {
    (3.0 - grade) * (5.0 / 3.0)
  }

  /** The SM-2 update keeps a score valid: the interval of a pass is at least one day because the ease factor is at least 1.3. */
  lemma {:induction false} Sm2KeepsScoreValid(quality: real, s: Score)
    requires ValidScore(s)
    ensures ValidScore(Sm2(quality, s))
  {
    if quality >= 3.0 && s.repetitions != 0 && s.repetitions != 1 {
      var x := s.interval as real * s.easeFactor;
      assert x >= s.interval as real * EaseFloor;
      assert Round(x) >= 1;
    }
  }

  /** On a pass from a valid score the interval never shrinks, from the third repetition on. */
  lemma {:induction false} Sm2IntervalGrows(quality: real, s: Score)
    requires ValidScore(s) && quality >= 3.0 && s.repetitions >= 2
    ensures Sm2(quality, s).interval >= s.interval
  {
    var x := s.interval as real * s.easeFactor;
    assert x >= s.interval as real * EaseFloor;
    assert x >= s.interval as real + 0.3;
  }

  /** A higher quality never gives a smaller ease factor, on the 0..5 scale. */
  lemma {:induction false} EaseDeltaMonotone(q1: real, q2: real)
    requires 0.0 <= q1 <= q2 <= 5.0
    ensures EaseDelta(q1) <= EaseDelta(q2)
    ensures EaseDelta(q2) <= EaseDelta(5.0) == 0.1
  {
    var d1, d2 := 5.0 - q1, 5.0 - q2;
    assert EaseDelta(q2) - EaseDelta(q1) == (d1 - d2) * (0.08 + 0.02 * (d1 + d2));
    assert (d1 - d2) * (0.08 + 0.02 * (d1 + d2)) >= 0.0;
    assert EaseDelta(5.0) - EaseDelta(q2) == d2 * (0.08 + 0.02 * d2);
  }

  /** So the ease factor of a new score rises by at most 0.1 and, for quality 5, by exactly 0.1 (above the floor). */
  lemma EaseFactorBounds(quality: real, s: Score)
    requires 0.0 <= quality <= 5.0 && s.easeFactor >= EaseFloor
    ensures Sm2(quality, s).easeFactor <= s.easeFactor + 0.1
    ensures quality == 5.0 ==> Sm2(quality, s).easeFactor == s.easeFactor + 0.1
  {
    EaseDeltaMonotone(quality, 5.0);
  }

  /** Two passes from a fresh score give intervals 1 and then 6, with repetitions 1 and then 2. */
  lemma TwoPassesFromFresh(q1: real, q2: real, s: Score)
    requires q1 >= 3.0 && q2 >= 3.0 && s.repetitions == 0
    ensures Sm2(q1, s).interval == 1 && Sm2(q1, s).repetitions == 1
    ensures Sm2(q2, Sm2(q1, s)).interval == 6 && Sm2(q2, Sm2(q1, s)).repetitions == 2
  {
  }

  /** The worked example: quality 5 on `{0, 2.5, 1}` gives `{1, 2.6, 1}`. */
  lemma PerfectRecallOnDefault(id: string)
    ensures Sm2(5.0, Score(id, 0, 2.5, 1)) == Score(id, 1, 2.6, 1)
  {
  }
}
