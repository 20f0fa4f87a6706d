/**
 * The end-of-practice screen (Views/ResultsView.swift): stars and the
 * headline message banded on the session's accuracy, when the trophy and the
 * confetti appear, and the time display.
 */
module Results {
  import opened SwiftStd
  import opened Percent
  import opened Questions
  import Clock

  /** `stars`: 3 from 90 %, 2 from 70 %, 1 from 50 %, otherwise 0. */
  function StarsFor(accuracy: real): (r: nat)
    ensures r <= 3
    ensures r == 3 <==> accuracy >= 90.0
    ensures r == 2 <==> 70.0 <= accuracy < 90.0
    ensures r == 1 <==> 50.0 <= accuracy < 70.0
    ensures r == 0 <==> accuracy < 50.0
  {
    if accuracy >= 90.0 then 3
    else if accuracy >= 70.0 then 2
    else if accuracy >= 50.0 then 1
    else 0
  }

  /** The stars a finished (or abandoned) session earns. */
  function Stars(session: SessionState): nat {
    StarsFor(session.Accuracy())
  }

  /** Better accuracy never earns fewer stars. */
  lemma StarsForMonotone(a: real, b: real)
    requires a <= b
    ensures StarsFor(a) <= StarsFor(b)
  {
  }

  /**
   * The star bands in whole numbers: with `c` right out of `n` answered,
   * three stars need `100c >= 90n`, two `100c >= 70n`, one `100c >= 50n`;
   * no answers at all earn none.
   */
  lemma StarsBands(session: SessionState)
    ensures session.currentQuestionIndex == 0 ==> Stars(session) == 0
    ensures var c, n := session.correctCount, session.currentQuestionIndex;
            n > 0 ==>
              && (Stars(session) == 3 <==> 100 * c >= 90 * n)
              && (Stars(session) >= 2 <==> 100 * c >= 70 * n)
              && (Stars(session) >= 1 <==> 100 * c >= 50 * n)
  {
    var c, n := session.correctCount, session.currentQuestionIndex;
    if n > 0 {
      AtLeast(c, n, 90);
      AtLeast(c, n, 70);
      AtLeast(c, n, 50);
    }
  }

  /** A session with a larger share of right answers earns at least as many stars. */
  lemma StarsMonotone(s: SessionState, t: SessionState)
    requires s.currentQuestionIndex > 0 && t.currentQuestionIndex > 0
    requires s.correctCount * t.currentQuestionIndex <= t.correctCount * s.currentQuestionIndex
    ensures Stars(s) <= Stars(t)
  {
    Compare(s.correctCount, s.currentQuestionIndex, t.correctCount, t.currentQuestionIndex);
    StarsForMonotone(s.Accuracy(), t.Accuracy());
  }

  /** A perfect session earns three stars; one with nothing right earns none. */
  lemma StarsExtremes(session: SessionState)
    requires session.Valid() && session.currentQuestionIndex > 0
    ensures session.correctCount == session.currentQuestionIndex ==> Stars(session) == 3
    ensures session.correctCount == 0 ==> Stars(session) == 0
  {
    StarsBands(session);
  }

  datatype Message = Excellent | GreatJob | GoodEffort | KeepPracticing

  /** `message`, keyed on the same thresholds as `stars`. */
  function MessageFor(accuracy: real): Message {
    if accuracy >= 90.0 then Excellent
    else if accuracy >= 70.0 then GreatJob
    else if accuracy >= 50.0 then GoodEffort
    else KeepPracticing
  }

  /** The message band is the star band. */
  lemma MessageMatchesStars(accuracy: real)
    ensures MessageFor(accuracy) == Excellent <==> StarsFor(accuracy) == 3
    ensures MessageFor(accuracy) == GreatJob <==> StarsFor(accuracy) == 2
    ensures MessageFor(accuracy) == GoodEffort <==> StarsFor(accuracy) == 1
    ensures MessageFor(accuracy) == KeepPracticing <==> StarsFor(accuracy) == 0
  {
  }

  /** The trophy replaces the star icon from two stars up. */
  predicate ShowsTrophy(session: SessionState) {
    Stars(session) >= 2
  }

  /**
   * `startAnimations()` on appear: with motion reduced it returns before
   * scheduling anything; otherwise the confetti is scheduled from two stars up.
   */
  predicate SchedulesConfetti(session: SessionState, reduceMotion: bool) {
    if reduceMotion then false else Stars(session) >= 2
  }

  /** The confetti layer: scheduled, earned, and motion not reduced. */
  predicate ShowsConfetti(session: SessionState, showConfetti: bool, reduceMotion: bool) {
    showConfetti && Stars(session) >= 2 && !reduceMotion
  }

  /**
   * Confetti only ever accompanies the trophy; it is scheduled exactly when
   * motion is not reduced and at least 70 % of the answers were right, and
   * once scheduled the layer shows it; the trophy itself comes exactly at
   * 70 % right.
   */
  lemma ConfettiNeedsTrophy(session: SessionState, showConfetti: bool, reduceMotion: bool)
    ensures ShowsConfetti(session, showConfetti, reduceMotion) ==> ShowsTrophy(session)
    ensures SchedulesConfetti(session, reduceMotion) <==>
              && !reduceMotion
              && session.currentQuestionIndex > 0
              && 100 * session.correctCount >= 70 * session.currentQuestionIndex
    ensures ShowsConfetti(session, SchedulesConfetti(session, reduceMotion), reduceMotion) <==>
              SchedulesConfetti(session, reduceMotion)
    ensures session.currentQuestionIndex > 0 ==>
              (ShowsTrophy(session) <==> 100 * session.correctCount >= 70 * session.currentQuestionIndex)
  {
    StarsBands(session);
  }

  /** `formatTime(_:)`: the time truncated to whole seconds, then "mm:ss". */
  function FormatTime(time: real): string {
    Clock.Format(Truncate(time))
  }

  /** Below 100 minutes the display shows the whole seconds of the time, split into minutes and seconds. */
  lemma FormatTimeReadsBack(time: real)
    requires 0.0 <= time < 6000.0
    ensures var r := FormatTime(time);
            && |r| == 5 && r[2] == ':'
            && AllDigits(r[..2]) && AllDigits(r[3..])
            && DigitsValue(r[3..]) < 60
            && 60 * DigitsValue(r[..2]) + DigitsValue(r[3..]) == Truncate(time)
            && Truncate(time) as real <= time < Truncate(time) as real + 1.0
  {
    Clock.FormatReadsBack(Truncate(time));
  }
}
