/**
 * Questions, the three ways of generating a batch of them, and the quiz
 * session that walks through a batch (Models/Question.swift).
 *
 * A question's UUID is a natural number chosen by the caller; the generators
 * hand out `firstId`, `firstId + 1`, ... so the ids of a batch are distinct.
 * Random choices are oracle arguments: the values `Int.random` and
 * `randomElement` would have returned, and the swaps a Fisher-Yates
 * `shuffled()` would have made.
 */
module Questions {
  import opened Wrappers
  import opened Percent

  /** The question `multiplier × multiplicand`. */
  datatype Question = Question(id: nat, multiplier: int, multiplicand: int) {

    /** The expected answer. */
    function Answer(): int {
      multiplier * multiplicand
    }
  }

  predicate DistinctIds(qs: seq<Question>) {
    forall i, j :: 0 <= i < j < |qs| ==> qs[i].id != qs[j].id
  }

  /** The multiplicands every generator draws from: `0...10`. */
  predicate IsMultiplicand(x: int) {
    0 <= x <= 10
  }

  /** The distinct values a random source produced. */
  function Values(draws: seq<int>): set<int> {
    set x | x in draws
  }

  /** The multiplicands of `qs`, in order. */
  function Multiplicands(qs: seq<Question>): (r: seq<int>)
    ensures |r| == |qs| && forall i :: 0 <= i < |qs| ==> r[i] == qs[i].multiplicand
  {
    seq(|qs|, i requires 0 <= i < |qs| => qs[i].multiplicand)
  }

  lemma MultiplicandsAppend(qs: seq<Question>, q: Question)
    ensures Multiplicands(qs + [q]) == Multiplicands(qs) + [q.multiplicand]
  {
    assert forall i :: 0 <= i < |qs| ==> (qs + [q])[i] == qs[i];
  }

  /** The distinct values of `draws` in the order they first appear. */
  function FirstSeen(draws: seq<int>): seq<int> {
    if draws == [] then []
    else
      var earlier, x := draws[..|draws| - 1], draws[|draws| - 1];
      if x in earlier then FirstSeen(earlier) else FirstSeen(earlier) + [x]
  }

  /** Every drawn value is first seen exactly once. */
  lemma {:induction false} FirstSeenFacts(draws: seq<int>)
    ensures forall x :: x in FirstSeen(draws) <==> x in draws
    ensures forall i, j :: 0 <= i < j < |FirstSeen(draws)| ==> FirstSeen(draws)[i] != FirstSeen(draws)[j]
    decreases |draws|
  {
    if draws != [] {
      var earlier := draws[..|draws| - 1];
      FirstSeenFacts(earlier);
      assert draws == earlier + [draws[|draws| - 1]];
    }
  }

  /** Drawing more only appends to the values first seen so far. */
  lemma {:induction false} FirstSeenPrefix(draws: seq<int>, k: nat)
    requires k <= |draws|
    ensures |FirstSeen(draws[..k])| <= |FirstSeen(draws)|
    ensures FirstSeen(draws[..k]) == FirstSeen(draws)[..|FirstSeen(draws[..k])|]
    decreases |draws|
  {
    if k == |draws| {
      assert draws[..k] == draws;
    } else {
      var earlier := draws[..|draws| - 1];
      assert earlier[..k] == draws[..k];
      FirstSeenPrefix(earlier, k);
    }
  }

  /** One more draw: a new value is appended to those first seen, a repeat changes nothing. */
  lemma FirstSeenStep(draws: seq<int>, k: nat, used: set<int>)
    requires k < |draws| && used == Values(draws[..k])
    ensures Values(draws[..k + 1]) == used + {draws[k]}
    ensures FirstSeen(draws[..k + 1]) ==
              if draws[k] in used then FirstSeen(draws[..k]) else FirstSeen(draws[..k]) + [draws[k]]
  {
    assert draws[..k + 1] == draws[..k] + [draws[k]];
    assert draws[..k + 1][..k] == draws[..k];
    assert draws[k] in draws[..k] <==> draws[k] in used;
  }

  /** The values first seen in a prefix of the draws start the values first seen in all of them, and are multiplicands drawn. */
  lemma FirstSeenDrawn(draws: seq<int>, k: nat)
    requires k <= |draws|
    requires forall j :: 0 <= j < |draws| ==> IsMultiplicand(draws[j])
    ensures var seen := FirstSeen(draws[..k]);
            && |seen| <= |FirstSeen(draws)|
            && (forall i :: 0 <= i < |seen| ==> seen[i] == FirstSeen(draws)[i])
            && (forall i :: 0 <= i < |seen| ==> IsMultiplicand(seen[i]) && seen[i] in draws)
            && (forall i, j :: 0 <= i < j < |seen| ==> seen[i] != seen[j])
  {
    FirstSeenPrefix(draws, k);
    FirstSeenFacts(draws[..k]);
    var seen := FirstSeen(draws[..k]);
    forall i | 0 <= i < |seen|
      ensures IsMultiplicand(seen[i]) && seen[i] in draws
    {
      assert seen[i] in seen;
      assert seen[i] in draws[..k];
      var m :| 0 <= m < k && draws[m] == seen[i];
    }
  }

  function Min(a: int, b: int): int {
    if a <= b then a else b
  }

  /**
   * `Question.generate(for:count:randomize:)`.
   *
   * With `randomize`, `draws` are the successive results of
   * `Int.random(in: 0...10)`; the loop stops once `count` distinct values were
   * seen, so it terminates only if the source produces that many (see
   * `RandomNeedsAtMostEleven`: never when `count > 11`).
   * Without `randomize`, the closed range `0...min(10, count - 1)` traps when
   * `count < 1`, so callers must pass a positive count.
   */
  method Generate(table: int, count: int, randomize: bool, draws: seq<int>, firstId: nat)
    returns (questions: seq<Question>)
    requires randomize ==> (forall k :: 0 <= k < |draws| ==> IsMultiplicand(draws[k])) && count <= |Values(draws)|
    requires !randomize ==> count >= 1
    ensures DistinctIds(questions)
    ensures forall i :: 0 <= i < |questions| ==> questions[i].multiplier == table
    ensures randomize ==> |questions| == (if count < 0 then 0 else count)
    ensures randomize ==> forall i :: 0 <= i < |questions| ==>
              IsMultiplicand(questions[i].multiplicand) && questions[i].multiplicand in draws
    ensures randomize ==> forall i, j :: 0 <= i < j < |questions| ==>
              questions[i].multiplicand != questions[j].multiplicand
    ensures randomize ==> |questions| <= |FirstSeen(draws)|
    ensures randomize ==> forall i :: 0 <= i < |questions| ==> questions[i].multiplicand == FirstSeen(draws)[i]
    ensures !randomize ==> |questions| == Min(11, count)
    ensures !randomize ==> forall i :: 0 <= i < |questions| ==> questions[i].multiplicand == i
  {
    if randomize {
      questions := GenerateRandom(table, count, draws, firstId);
    } else {
      questions := GenerateSequential(table, count, firstId);
    }
  }

  /** The random branch of `generate`: draw until `count` distinct multiplicands were seen. */
  method GenerateRandom(table: int, count: int, draws: seq<int>, firstId: nat) returns (questions: seq<Question>)
    requires forall k :: 0 <= k < |draws| ==> IsMultiplicand(draws[k])
    requires count <= |Values(draws)|
    ensures |questions| == (if count < 0 then 0 else count)
    ensures forall i :: 0 <= i < |questions| ==> questions[i] == Question(firstId + i, table, questions[i].multiplicand)
    ensures forall i :: 0 <= i < |questions| ==> IsMultiplicand(questions[i].multiplicand) && questions[i].multiplicand in draws
    ensures forall i, j :: 0 <= i < j < |questions| ==> questions[i].multiplicand != questions[j].multiplicand
    ensures |questions| <= |FirstSeen(draws)|
    ensures forall i :: 0 <= i < |questions| ==> questions[i].multiplicand == FirstSeen(draws)[i]
  {
    var k;
    questions, k := DrawDistinct(table, count, draws, firstId);
    FirstSeenDrawn(draws, k);
  }

  /**
   * The loop of the random branch: draw until `count` distinct values were
   * seen. The questions made are those first seen in the `k` draws used.
   */
  method DrawDistinct(table: int, count: int, draws: seq<int>, firstId: nat) returns (questions: seq<Question>, k: nat)
    requires count <= |Values(draws)|
    ensures k <= |draws|
    ensures |questions| == (if count < 0 then 0 else count)
    ensures forall i :: 0 <= i < |questions| ==> questions[i] == Question(firstId + i, table, questions[i].multiplicand)
    ensures Multiplicands(questions) == FirstSeen(draws[..k])
  {
    questions := [];
    var used: set<int> := {};
    k := 0;
    assert draws[..|draws|] == draws;
    while |questions| < count
      invariant 0 <= k <= |draws|
      invariant used == Values(draws[..k])
      invariant |questions| == |used| <= (if count < 0 then 0 else count)
      invariant forall i :: 0 <= i < |questions| ==> questions[i] == Question(firstId + i, table, questions[i].multiplicand)
      invariant Multiplicands(questions) == FirstSeen(draws[..k])
      decreases |draws| - k
    {
      if k == |draws| {
        assert false;
      }
      var num := draws[k];
      FirstSeenStep(draws, k, used);
      k := k + 1;
      if num !in used {
        var q := Question(firstId + |questions|, table, num);
        MultiplicandsAppend(questions, q);
        questions := questions + [q];
        used := used + {num};
      }
    }
  }

  /** The sequential branch of `generate`: multiplicands `0...min(10, count - 1)` in order. */
  method GenerateSequential(table: int, count: int, firstId: nat) returns (questions: seq<Question>)
    requires count >= 1
    ensures |questions| == Min(11, count)
    ensures forall i :: 0 <= i < |questions| ==> questions[i] == Question(firstId + i, table, i)
  {
    questions := [];
    var upper := Min(10, count - 1);
    for i := 0 to upper + 1
      invariant |questions| == i
      invariant forall m :: 0 <= m < i ==> questions[m] == Question(firstId + m, table, m)
    {
      questions := questions + [Question(firstId + i, table, i)];
    }
  }

  /** However long the random source runs, it yields at most eleven distinct multiplicands. */
  lemma RandomNeedsAtMostEleven(draws: seq<int>)
    requires forall k :: 0 <= k < |draws| ==> IsMultiplicand(draws[k])
    ensures |Values(draws)| <= 11
  {
    var range := Below(11);
    assert Values(draws) <= range;
    SubsetSize(Values(draws), range);
  }

  lemma SubsetSize(a: set<int>, b: set<int>)
    requires a <= b
    ensures |a| <= |b|
  {
    assert b == a + (b - a);
  }

  /** The set `0..<n`. */
  function Below(n: nat): (r: set<int>)
    ensures |r| == n
    ensures forall x :: x in r <==> 0 <= x < n
  {
    if n == 0 then {} else Below(n - 1) + {n - 1}
  }

  /** The choices `generateMixed` makes before shuffling, in draw order. */
  predicate MixedPicksOk(tables: seq<int>, count: nat, tablePicks: seq<nat>, numberPicks: seq<nat>) {
    && |tablePicks| >= count && |numberPicks| >= count
    && (forall i :: 0 <= i < count ==> |tables| == 0 || tablePicks[i] < |tables|)
    && (forall i :: 0 <= i < count ==> IsMultiplicand(numberPicks[i]))
  }

  /** Fisher-Yates swap choices: at step `i` the element at `i` trades places with one at or after it. */
  predicate ShuffleSwapsOk(count: nat, swaps: seq<nat>) {
    |swaps| >= count && forall i :: 0 <= i < count ==> i <= swaps[i] < count
  }

  /** The batch before shuffling: `tables.randomElement() ?? 1` times `multiplicands.randomElement()`. */
  function MixedDraws(tables: seq<int>, count: nat, tablePicks: seq<nat>, numberPicks: seq<nat>, firstId: nat): (qs: seq<Question>)
    requires MixedPicksOk(tables, count, tablePicks, numberPicks)
    ensures |qs| == count && DistinctIds(qs)
    ensures forall i :: 0 <= i < count ==> qs[i].multiplicand == numberPicks[i]
    ensures forall i :: 0 <= i < count ==> qs[i].multiplier == if |tables| == 0 then 1 else tables[tablePicks[i]]
  {
    seq(count, i requires 0 <= i < count =>
      Question(firstId + i, if |tables| == 0 then 1 else tables[tablePicks[i]], numberPicks[i]))
  }

  /** A mixed question: multiplier from `tables` (or 1 when there are none), multiplicand in `0...10`. */
  predicate IsMixedQuestion(q: Question, tables: seq<int>) {
    && IsMultiplicand(q.multiplicand)
    && (if |tables| == 0 then q.multiplier == 1 else q.multiplier in tables)
  }

  /** `Question.generateMixed(from:count:)`: draws `count` questions with replacement, then shuffles them. */
  method GenerateMixed(tables: seq<int>, count: nat, tablePicks: seq<nat>, numberPicks: seq<nat>, swaps: seq<nat>, firstId: nat)
    returns (questions: seq<Question>)
    requires MixedPicksOk(tables, count, tablePicks, numberPicks)
    requires ShuffleSwapsOk(count, swaps)
    ensures |questions| == count
    ensures multiset(questions) == multiset(MixedDraws(tables, count, tablePicks, numberPicks, firstId))
    ensures DistinctIds(questions)
    ensures forall i :: 0 <= i < |questions| ==> IsMixedQuestion(questions[i], tables)
  {
    var drawn := [];
    for n := 0 to count
      invariant drawn == MixedDraws(tables, count, tablePicks, numberPicks, firstId)[..n]
    {
      var table := if |tables| == 0 then 1 else tables[tablePicks[n]];
      drawn := drawn + [Question(firstId + n, table, numberPicks[n])];
    }
    assert drawn == MixedDraws(tables, count, tablePicks, numberPicks, firstId);
    questions := Shuffled(drawn, swaps);
    forall i | 0 <= i < |questions| ensures IsMixedQuestion(questions[i], tables) {
      assert questions[i] in multiset(drawn);
    }
  }

  /** `shuffled()`, as the Fisher-Yates swaps `swaps` make it: a permutation of `qs`. */
  method Shuffled(qs: seq<Question>, swaps: seq<nat>) returns (r: seq<Question>)
    requires ShuffleSwapsOk(|qs|, swaps)
    ensures |r| == |qs| && multiset(r) == multiset(qs)
    ensures DistinctIds(qs) ==> DistinctIds(r)
  {
    r := qs;
    for i := 0 to |qs|
      invariant |r| == |qs| && multiset(r) == multiset(qs)
      invariant DistinctIds(qs) ==> DistinctIds(r)
    {
      var j := swaps[i];
      if DistinctIds(r) {
        SwapKeepsDistinct(r, i, j);
      }
      r := r[i := r[j]][j := r[i]];
    }
  }

  lemma SwapKeepsDistinct(qs: seq<Question>, i: nat, j: nat)
    requires i < |qs| && j < |qs| && DistinctIds(qs)
    ensures DistinctIds(qs[i := qs[j]][j := qs[i]])
  {
    var s := qs[i := qs[j]][j := qs[i]];
    forall a, b | 0 <= a < b < |s| ensures s[a].id != s[b].id {
      var a' := if a == i then j else if a == j then i else a;
      var b' := if b == i then j else if b == j then i else b;
      assert s[a] == qs[a'] && s[b] == qs[b'] && a' != b';
    }
  }

  /** `QuizSession`'s stored state; the clock (`startTime`) is left out. */
  datatype SessionState = SessionState(
    questions: seq<Question>,
    currentQuestionIndex: nat,
    answers: map<nat, int>,
    correctCount: nat)
  {
    /** The ids of the questions already answered. */
    function AnsweredIds(): set<nat> {
      set k | 0 <= k < currentQuestionIndex && k < |questions| :: questions[k].id
    }

    /** `correctCount <= currentQuestionIndex <= questions.count`, and answers exist for exactly the questions passed. */
    predicate Valid() {
      && correctCount <= currentQuestionIndex <= |questions|
      && answers.Keys == AnsweredIds()
    }

    predicate IsComplete() {
      currentQuestionIndex >= |questions|
    }

    function CurrentQuestion(): (q: Option<Question>)
      ensures q.None? <==> IsComplete()
      ensures q.Some? ==> q.value == questions[currentQuestionIndex]
    {
      if currentQuestionIndex < |questions| then Some(questions[currentQuestionIndex]) else None
    }

    /** The fraction of questions done, 0 for an empty batch. */
    function Progress(): (r: real)
      ensures questions == [] ==> r == 0.0
      ensures Valid() ==> 0.0 <= r <= 1.0
      ensures Valid() && questions != [] ==> (r == 1.0 <==> IsComplete())
    {
      if |questions| == 0 then 0.0
      else
        var n := |questions| as real;
        var q := currentQuestionIndex as real / n;
        assert q * n == currentQuestionIndex as real;
        q
    }

    /** The percentage of answered questions that were right, 0 before the first answer. */
    function Accuracy(): (r: real)
      ensures currentQuestionIndex == 0 ==> r == 0.0
      ensures Valid() ==> 0.0 <= r <= 100.0
      ensures Valid() && currentQuestionIndex > 0 ==> (r == 100.0 <==> correctCount == currentQuestionIndex)
    {
      if currentQuestionIndex == 0 then 0.0
      else
        ShareFacts(correctCount, currentQuestionIndex);
        Percentage(correctCount, currentQuestionIndex)
    }

    /**
     * `submitAnswer(_:)`: on a complete session nothing changes and the answer
     * is wrong; otherwise the answer is recorded under the current question's
     * id, scored, and the cursor moves on by one.
     */
    function Submit(answer: int): (r: (SessionState, bool))
      ensures IsComplete() ==> r == (this, false)
      ensures !IsComplete() ==>
                var q := questions[currentQuestionIndex];
                && r.1 == (answer == q.Answer())
                && r.0.questions == questions
                && r.0.currentQuestionIndex == currentQuestionIndex + 1
                && r.0.correctCount == (if r.1 then correctCount + 1 else correctCount)
                && r.0.answers == answers[q.id := answer]
    {
      match CurrentQuestion()
      case None => (this, false)
      case Some(q) =>
        var isCorrect := answer == q.Answer();
        (this.(answers := answers[q.id := answer],
               correctCount := if isCorrect then correctCount + 1 else correctCount,
               currentQuestionIndex := currentQuestionIndex + 1),
         isCorrect)
    }

    /** `reset()`: back to the first question with no answers; the questions stay. */
    function Reset(): (r: SessionState)
      ensures r == NewSession(questions)
    {
      this.(currentQuestionIndex := 0, answers := map[], correctCount := 0)
    }
  }

  /** `QuizSession(questions:)`. */
  function NewSession(questions: seq<Question>): (s: SessionState)
    ensures s.Valid() && s.questions == questions
    ensures s.currentQuestionIndex == 0 && s.correctCount == 0 && s.answers == map[]
  {
    SessionState(questions, 0, map[], 0)
  }

  /** Submitting keeps `correctCount <= currentQuestionIndex <= questions.count` and the answers in step. */
  lemma SubmitKeepsValid(s: SessionState, answer: int)
    requires s.Valid()
    ensures s.Submit(answer).0.Valid()
  {
    if !s.IsComplete() {
      var t := s.Submit(answer).0;
      var i := s.currentQuestionIndex;
      assert t.AnsweredIds() == s.AnsweredIds() + {s.questions[i].id} by {
        forall id | id in t.AnsweredIds() ensures id in s.AnsweredIds() + {s.questions[i].id} {
          var k :| 0 <= k < i + 1 && k < |s.questions| && s.questions[k].id == id;
          if k < i {
            assert id in s.AnsweredIds();
          }
        }
      }
    }
  }

  /** Every submission advances the cursor by one or finds the session complete. */
  lemma SubmitAdvances(s: SessionState, answer: int)
    requires s.Valid()
    ensures var (t, ok) := s.Submit(answer);
            && t.questions == s.questions
            && (s.IsComplete() <==> t == s)
            && (!s.IsComplete() ==> t.currentQuestionIndex == s.currentQuestionIndex + 1)
            && (ok ==> t.correctCount == s.correctCount + 1)
            && (!ok ==> t.correctCount == s.correctCount)
  {
  }

  /** Submitting a whole list of answers, one after another. */
  function SubmitAll(s: SessionState, answers: seq<int>): SessionState
    decreases |answers|
  {
    if answers == [] then s else SubmitAll(s.Submit(answers[0]).0, answers[1..])
  }

  /** After any sequence of submissions, `correctCount <= currentQuestionIndex <= questions.count` still holds. */
  lemma {:induction false} SubmitAllKeepsValid(s: SessionState, answers: seq<int>)
    requires s.Valid()
    ensures SubmitAll(s, answers).Valid()
    ensures SubmitAll(s, answers).questions == s.questions
    ensures SubmitAll(s, answers).currentQuestionIndex == Min(|s.questions|, s.currentQuestionIndex + |answers|)
    decreases |answers|
  {
    if answers != [] {
      SubmitKeepsValid(s, answers[0]);
      SubmitAllKeepsValid(s.Submit(answers[0]).0, answers[1..]);
    }
  }

  /** Resetting is idempotent and leaves a session that is not complete unless it has no questions. */
  lemma ResetIdempotent(s: SessionState)
    ensures s.Reset().Reset() == s.Reset()
    ensures s.Reset().Valid()
    ensures s.Reset().IsComplete() <==> s.questions == []
  {
  }

  /** The state a `QuizSession` value lives in; its two mutating methods follow `Submit` and `Reset`. */
  class QuizSession {
    var questions: seq<Question>
    var currentQuestionIndex: nat
    var answers: map<nat, int>
    var correctCount: nat

    function State(): SessionState
      reads this
    {
      SessionState(questions, currentQuestionIndex, answers, correctCount)
    }

    constructor (questions: seq<Question>)
      ensures State() == NewSession(questions)
    {
      this.questions := questions;
      currentQuestionIndex := 0;
      answers := map[];
      correctCount := 0;
    }

    method SubmitAnswer(answer: int) returns (isCorrect: bool)
      modifies this
      ensures (State(), isCorrect) == old(State()).Submit(answer)
    {
      var current := State().CurrentQuestion();
      if current.None? {
        return false;
      }
      var question := current.value;
      answers := answers[question.id := answer];
      isCorrect := answer == question.Answer();
      if isCorrect {
        correctCount := correctCount + 1;
      }
      currentQuestionIndex := currentQuestionIndex + 1;
    }

    method Reset()
      modifies this
      ensures State() == old(State()).Reset()
    {
      currentQuestionIndex := 0;
      answers := map[];
      correctCount := 0;
    }
  }
}
