/**
 * Challenge mode (Views/ChallengeView.swift): a timed round of mixed
 * questions from the selected tables, ten points per right answer, a
 * countdown that ends the round, and a medal for the final score.
 *
 * The one-second timer and the 0.8 second pause after an answer are not
 * modelled as time: `Tick` and `MoveToNext` are steps the caller takes.
 * `Tick` only acts while the timer is scheduled, that is, from
 * `StartChallenge` until `EndChallenge` invalidates it.
 */
module Challenge {
  import opened SwiftStd
  import opened Percent
  import opened Questions
  import Clock

  datatype ChallengeDifficulty = Easy | Normal | Hard

  /** The seconds on the clock when a round starts: 120, 60 or 30. */
  function StartTime(d: ChallengeDifficulty): (r: nat)
    ensures r > 0 && r % 30 == 0
  {
    match d
    case Easy => 120
    case Normal => 60
    case Hard => 30
  }

  /** A harder round always starts with less time. */
  lemma HarderIsShorter()
    ensures StartTime(Hard) < StartTime(Normal) < StartTime(Easy)
  {
  }

  /** The setup screen's table toggle: a selected table is removed, any other is added. */
  function Toggled(tables: set<int>, table: int): (r: set<int>)
    ensures table in r <==> table !in tables
    ensures forall t :: t != table ==> (t in r <==> t in tables)
  {
    if table in tables then tables - {table} else tables + {table}
  }

  /** Toggling the same table twice gives back the selection. */
  lemma ToggleTwice(tables: set<int>, table: int)
    ensures Toggled(Toggled(tables, table), table) == tables
  {
  }

  /** `ChallengeGameView.timeString(_:)`, for the whole seconds left. */
  function TimeString(time: int): string {
    Clock.Format(time)
  }

  /** The countdown shows minutes and seconds that add up to the time left. */
  lemma TimeStringReadsBack(time: int)
    requires 0 <= time < 6000
    ensures var r := TimeString(time);
            && |r| == 5 && r[2] == ':' && AllDigits(r[..2]) && AllDigits(r[3..])
            && DigitsValue(r[3..]) < 60
            && 60 * DigitsValue(r[..2]) + DigitsValue(r[3..]) == time
  {
    Clock.FormatReadsBack(time);
  }

  /** 🥇, 🥈, 🥉 and the plain 🏅. */
  datatype Medal = Gold | Silver | Bronze | Participation

  /**
   * `ChallengeResultsView.medal`: the score as a percentage of
   * `totalQuestions * 10`, banded at 80, 60 and 40. With no questions the
   * `Double` division gives +infinity for a positive score (gold) and
   * -infinity or NaN otherwise, which pass no threshold.
   */
  function MedalFor(score: int, totalQuestions: int): Medal {
    var whole := totalQuestions * 10;
    if whole == 0 then
      if score > 0 then Gold else Participation
    else
      var percentage := Percentage(score, whole);
      if percentage >= 80.0 then Gold
      else if percentage >= 60.0 then Silver
      else if percentage >= 40.0 then Bronze
      else Participation
  }

  /** The medal bands in whole numbers, for a round with questions. */
  lemma MedalBands(score: int, totalQuestions: int)
    requires totalQuestions > 0
    ensures var whole := 10 * totalQuestions;
            && (MedalFor(score, totalQuestions) == Gold <==> 100 * score >= 80 * whole)
            && (MedalFor(score, totalQuestions) == Silver <==> 60 * whole <= 100 * score < 80 * whole)
            && (MedalFor(score, totalQuestions) == Bronze <==> 40 * whole <= 100 * score < 60 * whole)
            && (MedalFor(score, totalQuestions) == Participation <==> 100 * score < 40 * whole)
  {
    var whole := totalQuestions * 10;
    AtLeast(score, whole, 80);
    AtLeast(score, whole, 60);
    AtLeast(score, whole, 40);
  }

  /** In a round of twenty, the medal counts right answers: gold from 16, silver from 12, bronze from 8. */
  lemma MedalForTwenty(correct: nat)
    requires correct <= 20
    ensures MedalFor(10 * correct, 20) == Gold <==> correct >= 16
    ensures MedalFor(10 * correct, 20) == Silver <==> 12 <= correct < 16
    ensures MedalFor(10 * correct, 20) == Bronze <==> 8 <= correct < 12
    ensures MedalFor(10 * correct, 20) == Participation <==> correct < 8
  {
    MedalBands(10 * correct, 20);
  }

  /**
   * `submitAnswer()` as Views/ChallengeView.swift:84-88 writes it, once its
   * `let session = session` is made a `var` so that it compiles: the answer
   * is scored on a local copy of the session and the copy is dropped.
   * Returns the session the view model keeps, the new score and the verdict.
   */
  function SubmitOnCopy(session: SessionState, score: int, answer: int): (SessionState, int, bool) {
    var (_, isCorrect) := session.Submit(answer);
    (session, if isCorrect then score + 10 else score, isCorrect)
  }

  /**
   * On a copy, a right answer scores ten points while the kept session stays
   * where it was, so the score no longer counts the session's right answers.
   */
  lemma CopyLosesTheAnswer(session: SessionState, score: int)
    requires session.Valid() && !session.IsComplete()
    requires score == 10 * session.correctCount
    ensures var answer := session.questions[session.currentQuestionIndex].Answer();
            var (kept, newScore, ok) := SubmitOnCopy(session, score, answer);
            && ok && kept == session && newScore == score + 10
            && newScore != 10 * kept.correctCount
  {
  }

  /** The same right answer to a one-question round scores twice and the round never completes. */
  lemma CopyRepeatsTheQuestion()
    ensures var s := NewSession([Question(0, 2, 3)]);
            var (s1, score1, ok1) := SubmitOnCopy(s, 0, 6);
            var (s2, score2, ok2) := SubmitOnCopy(s1, score1, 6);
            ok1 && ok2 && score2 == 20 && s2 == s && !s2.IsComplete()
  {
  }

  /**
   * The questions of a round: `generateMixed(from: Array(selectedTables), count:)`,
   * with `order` the order in which the array lists the selection.
   */
  method RoundQuestions(order: seq<int>, selected: set<int>, count: nat, tablePicks: seq<nat>, numberPicks: seq<nat>, swaps: seq<nat>, firstId: nat)
    returns (questions: seq<Question>)
    requires Values(order) == selected && |order| == |selected|
    requires MixedPicksOk(order, count, tablePicks, numberPicks)
    requires ShuffleSwapsOk(count, swaps)
    ensures |questions| == count && DistinctIds(questions)
    ensures forall i :: 0 <= i < |questions| ==>
              IsMultiplicand(questions[i].multiplicand) &&
              (if selected == {} then questions[i].multiplier == 1 else questions[i].multiplier in selected)
  {
    questions := GenerateMixed(order, count, tablePicks, numberPicks, swaps, firstId);
    forall i | 0 <= i < |questions|
      ensures if selected == {} then questions[i].multiplier == 1 else questions[i].multiplier in selected
    {
      assert IsMixedQuestion(questions[i], order);
      if order != [] {
        assert questions[i].multiplier in Values(order);
      }
    }
  }

  /** `ChallengeViewModel`. */
  class ChallengeViewModel {
    var selectedTables: set<int>
    var difficulty: ChallengeDifficulty
    var isPlaying: bool
    var showResults: bool
    var session: QuizSession?
    var currentAnswer: string
    var score: int
    var totalQuestions: nat
    var timeRemaining: int
    var showFeedback: bool
    var lastCorrect: bool
    /** Whether the one-second timer is scheduled. */
    var timerRunning: bool

    /**
     * The score is ten points per right answer of the current session; the
     * clock never runs below zero; the timer runs exactly while a round is
     * played, and a round in play has a session and no results showing.
     */
    ghost predicate Valid()
      reads this, session
    {
      && (session == null ==> score == 0)
      && (session != null ==> session.State().Valid() && score == 10 * session.correctCount)
      && timeRemaining >= 0
      && totalQuestions == 20
      && timerRunning == isPlaying
      && (isPlaying ==> session != null && !showResults)
    }

    /** The initial values: tables 2 to 5, normal difficulty, twenty questions, a minute on the clock. */
    constructor ()
      ensures Valid()
      ensures selectedTables == {2, 3, 4, 5} && difficulty == Normal
      ensures !isPlaying && !showResults && session == null && currentAnswer == ""
      ensures score == 0 && totalQuestions == 20 && timeRemaining == 60 && !showFeedback && !lastCorrect
    {
      selectedTables := {2, 3, 4, 5};
      difficulty := Normal;
      isPlaying := false;
      showResults := false;
      session := null;
      currentAnswer := "";
      score := 0;
      totalQuestions := 20;
      timeRemaining := 60;
      showFeedback := false;
      lastCorrect := false;
      timerRunning := false;
    }

    /**
     * `startChallenge()`: a fresh session of `totalQuestions` mixed questions
     * from the selected tables, the score at zero, the clock set for the
     * difficulty and the timer started. `order` is the order in which
     * `Array(selectedTables)` lists the selection; the picks and swaps are
     * the random choices of `generateMixed`.
     */
    method StartChallenge(order: seq<int>, tablePicks: seq<nat>, numberPicks: seq<nat>, swaps: seq<nat>, firstId: nat)
      requires Valid()
      requires Values(order) == selectedTables && |order| == |selectedTables|
      requires MixedPicksOk(order, totalQuestions, tablePicks, numberPicks)
      requires ShuffleSwapsOk(totalQuestions, swaps)
      modifies this
      ensures Valid()
      ensures session != null && fresh(session)
      ensures session.State() == NewSession(session.questions)
      ensures |session.questions| == totalQuestions && DistinctIds(session.questions)
      ensures forall i :: 0 <= i < |session.questions| ==>
                IsMultiplicand(session.questions[i].multiplicand) &&
                (if selectedTables == {} then session.questions[i].multiplier == 1
                 else session.questions[i].multiplier in selectedTables)
      ensures score == 0 && currentAnswer == "" && !showFeedback && isPlaying && !showResults
      ensures timeRemaining == StartTime(difficulty) && timerRunning
      ensures selectedTables == old(selectedTables) && difficulty == old(difficulty)
      ensures totalQuestions == old(totalQuestions) && lastCorrect == old(lastCorrect)
    {
      var questions := RoundQuestions(order, selectedTables, totalQuestions, tablePicks, numberPicks, swaps, firstId);
      Begin(questions);
    }

    /** The part of `startChallenge()` after the questions are drawn: a new session over them and a fresh round. */
    method Begin(questions: seq<Question>)
      requires Valid()
      modifies this`session, this`score, this`currentAnswer, this`showFeedback, this`isPlaying
      modifies this`showResults, this`timeRemaining, this`timerRunning
      ensures Valid()
      ensures session != null && fresh(session) && session.State() == NewSession(questions)
      ensures score == 0 && currentAnswer == "" && !showFeedback && isPlaying && !showResults
      ensures timeRemaining == StartTime(difficulty) && timerRunning
    {
      score, currentAnswer, showFeedback, isPlaying, showResults := 0, "", false, true, false;
      timeRemaining, timerRunning := StartTime(difficulty), true;
      session := new QuizSession(questions);
    }

    /**
     * `submitAnswer()`: nothing happens when the typed answer is not an
     * `Int`, there is no session, or feedback shows; otherwise the session
     * scores the answer and a right one is worth ten points.
     */
    method SubmitAnswer()
      requires Valid()
      modifies this`lastCorrect, this`score, this`showFeedback, session
      ensures Valid()
      ensures ParseInt(old(currentAnswer)).None? || old(session) == null || old(showFeedback) ==>
                unchanged(this) && (session != null ==> session.State() == old(session.State()))
      ensures ParseInt(old(currentAnswer)).Some? && old(session) != null && !old(showFeedback) ==>
                && session == old(session)
                && (session.State(), lastCorrect) == old(session.State()).Submit(ParseInt(old(currentAnswer)).value)
                && score == old(score) + (if lastCorrect then 10 else 0)
                && showFeedback
                && currentAnswer == old(currentAnswer) && timeRemaining == old(timeRemaining)
                && isPlaying == old(isPlaying) && showResults == old(showResults) && timerRunning == old(timerRunning)
      ensures session != null ==> score % 10 == 0 && 0 <= score <= 10 * session.currentQuestionIndex
    {
      var parsed := ParseInt(currentAnswer);
      if parsed.None? || session == null || showFeedback {
        return;
      }
      ScoreAnswer(parsed.value);
    }

    /** The part of `submitAnswer()` past its guard: the session scores `answer`, ten points if right. */
    method ScoreAnswer(answer: int)
      requires Valid() && session != null && !showFeedback
      modifies this`lastCorrect, this`score, this`showFeedback, session
      ensures Valid()
      ensures session == old(session)
      ensures (session.State(), lastCorrect) == old(session.State()).Submit(answer)
      ensures score == old(score) + (if lastCorrect then 10 else 0)
      ensures showFeedback
      ensures currentAnswer == old(currentAnswer) && timeRemaining == old(timeRemaining)
      ensures isPlaying == old(isPlaying) && showResults == old(showResults) && timerRunning == old(timerRunning)
      ensures score % 10 == 0 && 0 <= score <= 10 * session.currentQuestionIndex
    {
      ghost var before := session.State();
      SubmitKeepsValid(before, answer);
      SubmitAdvances(before, answer);
      lastCorrect := session.SubmitAnswer(answer);
      ghost var after := session.State();
      assert after.Valid() && after.correctCount <= after.currentQuestionIndex;
      assert after.correctCount == before.correctCount + (if lastCorrect then 1 else 0);
      if lastCorrect {
        score := score + 10;
      }
      assert score == 10 * after.correctCount;
      showFeedback := true;
    }

    /** `moveToNext()`: clears the feedback and the answer, and ends the round once the session is done or time is up. */
    method MoveToNext()
      requires Valid()
      modifies this`showFeedback, this`currentAnswer, this`isPlaying, this`showResults, this`timerRunning
      ensures Valid()
      ensures !showFeedback && currentAnswer == ""
      ensures var ends := (session != null && session.State().IsComplete()) || timeRemaining <= 0;
              && (ends ==> !isPlaying && showResults && !timerRunning)
              && (!ends ==> isPlaying == old(isPlaying) && showResults == old(showResults) && timerRunning == old(timerRunning))
      ensures session == old(session) && score == old(score) && timeRemaining == old(timeRemaining)
    {
      showFeedback := false;
      currentAnswer := "";
      if (session != null && session.State().IsComplete()) || timeRemaining <= 0 {
        EndChallenge();
      }
    }

    /** One firing of the timer: a second off the clock while any is left, otherwise the end of the round. */
    method Tick()
      requires Valid()
      modifies this`timeRemaining, this`isPlaying, this`showResults, this`timerRunning
      ensures Valid()
      ensures !old(timerRunning) ==> unchanged(this)
      ensures old(timerRunning) && old(timeRemaining) > 0 ==>
                timeRemaining == old(timeRemaining) - 1 && isPlaying && showResults == old(showResults)
      ensures old(timerRunning) && old(timeRemaining) <= 0 ==>
                timeRemaining == old(timeRemaining) && !isPlaying && showResults && !timerRunning
      ensures session == old(session) && score == old(score)
    {
      if !timerRunning {
        return;
      }
      if timeRemaining > 0 {
        timeRemaining := timeRemaining - 1;
      } else {
        EndChallenge();
      }
    }

    /** `endChallenge()`: the timer stops and the results show. */
    method EndChallenge()
      requires Valid()
      modifies this`isPlaying, this`showResults, this`timerRunning
      ensures Valid()
      ensures !isPlaying && showResults && !timerRunning
      ensures session == old(session) && score == old(score) && timeRemaining == old(timeRemaining)
      ensures selectedTables == old(selectedTables) && currentAnswer == old(currentAnswer)
      ensures showFeedback == old(showFeedback) && lastCorrect == old(lastCorrect)
    {
      timerRunning := false;
      isPlaying := false;
      showResults := true;
    }

    /**
     * The clear button beside the answer display, live even while feedback
     * shows; afterwards the answer is empty, so a submit does nothing.
     */
    method ClearAnswer()
      requires Valid()
      modifies this`currentAnswer
      ensures Valid()
      ensures currentAnswer == "" && ParseInt(currentAnswer).None?
    {
      currentAnswer := "";
    }

    /** The setup screen's tap on a table. */
    method ToggleTable(table: int)
      modifies this`selectedTables
      ensures selectedTables == Toggled(old(selectedTables), table)
    {
      if table in selectedTables {
        selectedTables := selectedTables - {table};
      } else {
        selectedTables := selectedTables + {table};
      }
    }
  }

  /**
   * The repeating timer left to fire with no answers given: it counts the
   * clock down to zero and then ends the round, leaving the score alone.
   */
  method RunTimerOut(vm: ChallengeViewModel)
    requires vm.Valid() && vm.isPlaying
    modifies vm`timeRemaining, vm`isPlaying, vm`showResults, vm`timerRunning
    ensures vm.Valid() && !vm.isPlaying && vm.showResults && vm.timeRemaining == 0
    ensures vm.score == old(vm.score) && vm.session == old(vm.session)
  {
    while vm.isPlaying
      invariant vm.Valid()
      invariant vm.isPlaying ==> vm.timerRunning
      invariant !vm.isPlaying ==> vm.showResults && vm.timeRemaining == 0
      invariant vm.score == old(vm.score) && vm.session == old(vm.session)
      decreases vm.isPlaying, vm.timeRemaining
    {
      vm.Tick();
    }
  }
}
