/**
 * The "mm:ss" display shared by the challenge countdown
 * (`ChallengeGameView.timeString`) and the results screen
 * (`ResultsView.formatTime`): whole seconds split with Swift's truncating
 * `/ 60` and `% 60`, each part printed with `%02d`.
 */
module Clock {
  import opened SwiftStd

  /** `(t / 60, t % 60)` with Swift's operators. */
  function Split(t: int): (r: (int, int))
    ensures 60 * r.0 + r.1 == t
    ensures t >= 0 ==> r.0 >= 0 && 0 <= r.1 < 60
    ensures t < 0 ==> r.0 <= 0 && -60 < r.1 <= 0
  {
    (Quotient(t, 60), Remainder(t, 60))
  }

  /** `String(format: "%02d:%02d", minutes, seconds)`. */
  function Format(t: int): string {
    var (minutes, seconds) := Split(t);
    Pad2(minutes) + ":" + Pad2(seconds)
  }

  /**
   * Under 100 minutes the display is exactly "mm:ss", and reading the two
   * fields back gives the seconds it was made from.
   */
  lemma FormatReadsBack(t: int)
    requires 0 <= t < 6000
    ensures var r := Format(t);
            && |r| == 5 && r[2] == ':'
            && AllDigits(r[..2]) && AllDigits(r[3..])
            && DigitsValue(r[3..]) < 60
            && 60 * DigitsValue(r[..2]) + DigitsValue(r[3..]) == t
  {
    var (minutes, seconds) := Split(t);
    assert minutes < 100;
    var r := Format(t);
    assert r[..2] == Pad2(minutes);
    assert r[3..] == Pad2(seconds);
  }
}
