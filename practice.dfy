/**
 * Practice mode (Views/PracticeView.swift): the number pad that edits the
 * typed answer, and the view model that submits it to a quiz session,
 * moves on, and restarts with fresh questions.
 *
 * The 1.5 second delay between a submission and `moveToNext` is not
 * modelled as time: `MoveToNext` is a step of its own that the caller takes.
 */
module Practice {
  import opened Wrappers
  import opened SwiftStd
  import opened Questions

  /** The label of the pad's delete key, "⌫". */
  const Backspace: string := "\U{232B}"

  /** The labels on the pad's buttons: the ten digits and the delete key. */
  predicate IsPadKey(number: string) {
    number == Backspace || (|number| == 1 && IsDigit(number[0]))
  }

  /**
   * `NumberPad.handleNumberTap(_:)` on the bound answer: nothing while the pad
   * is disabled; the delete key removes the last character; any other key
   * is appended while the answer is shorter than four characters.
   */
  function Tapped(answer: string, isEnabled: bool, number: string): (r: string)
    ensures !isEnabled ==> r == answer
    ensures isEnabled && number == Backspace && answer != [] ==> r + [answer[|answer| - 1]] == answer
    ensures isEnabled && number == Backspace && answer == [] ==> r == []
    ensures isEnabled && number != Backspace ==> r == (if |answer| < 4 then answer + number else answer)
    ensures IsPadKey(number) && |answer| <= 4 ==> |r| <= 4
    ensures IsPadKey(number) && AllDigits(answer) ==> AllDigits(r)
  {
    if !isEnabled then answer
    else if number == Backspace then
      if answer != [] then answer[..|answer| - 1] else answer
    else if |answer| < 4 then answer + number
    else answer
  }

  /** Deleting right after typing a digit gives back the answer as it was. */
  lemma DigitThenBackspace(answer: string, digit: string)
    requires IsPadKey(digit) && digit != Backspace && |answer| < 4
    ensures Tapped(Tapped(answer, true, digit), true, Backspace) == answer
  {
    var typed := Tapped(answer, true, digit);
    assert typed == answer + digit;
    assert typed[..|typed| - 1] == answer;
  }

  /** Typing a fifth digit is refused: a full answer stays as it is. */
  lemma FullAnswerRefusesDigits(answer: string, digit: string)
    requires digit != Backspace && |answer| >= 4
    ensures Tapped(answer, true, digit) == answer
  {
  }

  /** Anything the pad can produce parses as an `Int` unless it is empty, and then lies in 0..9999. */
  lemma PadAnswerParses(answer: string)
    requires AllDigits(answer) && |answer| <= 4
    ensures ParseInt(answer).None? <==> answer == []
    ensures ParseInt(answer).Some? ==> 0 <= ParseInt(answer).value <= 9999
  {
    if answer != [] {
      ParseShortDigits(answer);
    }
  }

  /** `PracticeViewModel`. Its `QuizSession` value is held by this one view model and changed only through it. */
  class PracticeViewModel {
    const session: QuizSession
    var userAnswer: string
    var showFeedback: bool
    var lastAnswerCorrect: bool
    var showResults: bool
    var celebration: bool

    /**
     * The session is consistent; the typed answer is what the pad can
     * produce; the celebration only follows a right answer whose feedback
     * is showing; results only show for a finished session.
     */
    ghost predicate Valid()
      reads this, session
    {
      && session.State().Valid()
      && AllDigits(userAnswer) && |userAnswer| <= 4
      && (celebration ==> showFeedback && lastAnswerCorrect)
      && (showResults ==> session.State().IsComplete())
    }

    /**
     * `init(tableNumber:)`: a session of ten random questions for the table.
     * `draws` are the random multiplicands and must hold ten distinct values.
     */
    constructor (tableNumber: int, draws: seq<int>, firstId: nat)
      requires forall k :: 0 <= k < |draws| ==> IsMultiplicand(draws[k])
      requires 10 <= |Values(draws)|
      ensures Valid()
      ensures |session.questions| == 10 && DistinctIds(session.questions)
      ensures forall i :: 0 <= i < 10 ==> session.questions[i].multiplier == tableNumber
      ensures forall i :: 0 <= i < 10 ==> IsMultiplicand(session.questions[i].multiplicand)
      ensures forall i, j :: 0 <= i < j < 10 ==> session.questions[i].multiplicand != session.questions[j].multiplicand
      ensures session.State() == NewSession(session.questions)
      ensures userAnswer == "" && !showFeedback && !lastAnswerCorrect && !showResults && !celebration
    {
      var questions := Generate(tableNumber, 10, true, draws, firstId);
      session := new QuizSession(questions);
      userAnswer := "";
      showFeedback := false;
      lastAnswerCorrect := false;
      showResults := false;
      celebration := false;
    }

    /**
     * `submitAnswer()`: nothing happens while feedback shows or when the typed
     * answer is not an `Int`; otherwise the session scores it once, the
     * feedback shows, and the celebration starts exactly when it was right.
     */
    method SubmitAnswer()
      requires Valid()
      modifies this, session
      ensures Valid()
      ensures ParseInt(old(userAnswer)).None? || old(showFeedback) ==>
                unchanged(this) && session.State() == old(session.State())
      ensures ParseInt(old(userAnswer)).Some? && !old(showFeedback) ==>
                && (session.State(), lastAnswerCorrect) == old(session.State()).Submit(ParseInt(old(userAnswer)).value)
                && showFeedback
                && celebration == lastAnswerCorrect
                && userAnswer == old(userAnswer) && showResults == old(showResults)
    {
      var parsed := ParseInt(userAnswer);
      if parsed.None? || showFeedback {
        return;
      }
      SubmitKeepsValid(session.State(), parsed.value);
      lastAnswerCorrect := session.SubmitAnswer(parsed.value);
      showFeedback := true;
      if lastAnswerCorrect {
        celebration := true;
      }
    }

    /** `moveToNext()`: clears the feedback and the typed answer; results show exactly when the session is finished. */
    method MoveToNext()
      requires Valid()
      modifies this
      ensures Valid()
      ensures !showFeedback && !celebration && userAnswer == ""
      ensures showResults <==> session.State().IsComplete()
      ensures lastAnswerCorrect == old(lastAnswerCorrect)
    {
      showFeedback := false;
      celebration := false;
      userAnswer := "";
      if session.State().IsComplete() {
        showResults := true;
      }
    }

    /**
     * `restart()`: the session is reset and given ten new random questions
     * for the table of its old first question (table 1 if it had none);
     * every flag and the typed answer are cleared.
     */
    method Restart(draws: seq<int>, firstId: nat)
      requires Valid()
      requires forall k :: 0 <= k < |draws| ==> IsMultiplicand(draws[k])
      requires 10 <= |Values(draws)|
      modifies this`userAnswer, this`showFeedback, this`showResults, this`celebration, session
      ensures Valid()
      ensures session.State() == NewSession(session.questions)
      ensures |session.questions| == 10 && DistinctIds(session.questions)
      ensures forall i :: 0 <= i < 10 ==>
                session.questions[i].multiplier == (if old(session.questions) != [] then old(session.questions[0].multiplier) else 1)
      ensures forall i :: 0 <= i < 10 ==> IsMultiplicand(session.questions[i].multiplicand)
      ensures forall i, j :: 0 <= i < j < 10 ==> session.questions[i].multiplicand != session.questions[j].multiplicand
      ensures userAnswer == "" && !showFeedback && !showResults && !celebration
    {
      session.Reset();
      var table := if session.questions != [] then session.questions[0].multiplier else 1;
      var questions := Generate(table, 10, true, draws, firstId);
      session.questions := questions;
      userAnswer := "";
      showFeedback := false;
      showResults := false;
      celebration := false;
    }

    /**
     * The clear button beside the answer display. Unlike the pad it is not
     * disabled while feedback shows; afterwards the answer is empty, so a
     * submit does nothing until a digit is typed.
     */
    method ClearAnswer()
      requires Valid()
      modifies this`userAnswer
      ensures Valid()
      ensures userAnswer == "" && ParseInt(userAnswer).None?
    {
      userAnswer := "";
    }

    /** A tap on the pad, which is enabled exactly while no feedback shows. */
    method TapKey(number: string)
      requires Valid() && IsPadKey(number)
      modifies this`userAnswer
      ensures Valid()
      ensures userAnswer == Tapped(old(userAnswer), !showFeedback, number)
    {
      if showFeedback {
        return;
      }
      if number == Backspace {
        if userAnswer != [] {
          userAnswer := userAnswer[..|userAnswer| - 1];
        }
      } else {
        if |userAnswer| < 4 {
          userAnswer := userAnswer + number;
        }
      }
    }
  }
}
