/**
 * The progress engine (Models/UserProgress.swift): running totals, the
 * streak, stars, per-table scores with mastery, and achievements.
 *
 * Times are whole milliseconds. Accuracies are exact percentages; every
 * threshold on them is shown equal to an integer cross-multiplication.
 * `lastPlayedDate` and `dateEarned` are clock readings and are left out.
 */
module Progress {
  import opened Percent

  /** `averageTime < 3.0` seconds counts a table as fast. */
  const FastLimitMs: nat := 3000

  /** Mastery needs this many attempts ... */
  const MasteryAttempts: nat := 10

  /** ... at an accuracy of at least this many percent. */
  const MasteryPercent: nat := 90

  /** One table's record; `totalTime` is in milliseconds. */
  datatype TableScore = TableScore(tableNumber: int, attempts: nat, correct: nat, totalTime: nat, mastered: bool) {

    /** `correct <= attempts`, and mastery is only ever reached after enough attempts. */
    predicate Valid() {
      correct <= attempts && (mastered ==> attempts >= MasteryAttempts)
    }

    /** `correct / attempts * 100`, 0 before the first attempt. */
    function Accuracy(): (r: real)
      ensures attempts == 0 ==> r == 0.0
      ensures Valid() ==> 0.0 <= r <= 100.0
    {
      if attempts == 0 then 0.0
      else
        ShareFacts(correct, attempts);
        Percentage(correct, attempts)
    }

    /** `totalTime / correct`, rounded down to a millisecond; 0 when nothing was answered correctly. */
    function AverageTime(): (r: nat)
      ensures correct == 0 ==> r == 0
      ensures correct > 0 ==> r * correct <= totalTime < r * correct + correct
    {
      if correct == 0 then 0
      else
        assert correct * (totalTime / correct) + totalTime % correct == totalTime;
        totalTime / correct
    }

    /** The table counts towards `speed_demon`. */
    predicate IsFast() {
      AverageTime() < FastLimitMs
    }

    /** `recordCorrectAnswer(timeSpent:)`. */
    function RecordCorrectAnswer(timeSpent: nat): (r: TableScore)
      ensures r.tableNumber == tableNumber && r.totalTime == totalTime + timeSpent
      ensures r.attempts == attempts + 1 && r.correct == correct + 1
      ensures r.mastered <==> mastered || (r.attempts >= MasteryAttempts && 100 * r.correct >= MasteryPercent * r.attempts)
      ensures Valid() ==> r.Valid()
    {
      var t := this.(attempts := attempts + 1, correct := correct + 1, totalTime := totalTime + timeSpent);
      AtLeast(t.correct, t.attempts, MasteryPercent);
      if t.attempts >= MasteryAttempts && t.Accuracy() >= MasteryPercent as real then t.(mastered := true) else t
    }

    /** `recordIncorrectAnswer()`: one more attempt, nothing else. */
    function RecordIncorrectAnswer(): (r: TableScore)
      ensures r.attempts == attempts + 1
      ensures r.tableNumber == tableNumber && r.correct == correct && r.totalTime == totalTime && r.mastered == mastered
      ensures Valid() ==> r.Valid()
    {
      this.(attempts := attempts + 1)
    }
  }

  /** `TableScore(tableNumber:)`. */
  function NewTableScore(table: int): (s: TableScore)
    ensures s.Valid() && s.tableNumber == table && s.attempts == 0 && s.correct == 0 && !s.mastered
  {
    TableScore(table, 0, 0, 0, false)
  }

  /** A table is fast exactly when it has no correct answer or averages under three seconds. */
  lemma FastIff(s: TableScore)
    ensures s.IsFast() <==> s.correct == 0 || s.totalTime < FastLimitMs * s.correct
  {
    if s.correct > 0 {
      var r, c := s.AverageTime(), s.correct;
      assert r * c <= s.totalTime < r * c + c;
      if r < FastLimitMs {
        MulLeft(r + 1, FastLimitMs, c);
        assert (r + 1) * c == r * c + c;
      } else {
        MulLeft(FastLimitMs, r, c);
      }
    }
  }

  lemma MulLeft(x: int, y: int, c: nat)
    requires x <= y
    ensures x * c <= y * c
  {
    assert y * c - x * c == (y - x) * c;
  }

  /** A table that has only ever been answered wrongly counts as fast. */
  lemma OnlyWrongAnswersIsFast(s: TableScore)
    requires s.correct == 0
    ensures s.IsFast()
  {
  }

  /** Once mastered, a table stays mastered whatever is recorded next. */
  lemma MasteryNeverReverts(s: TableScore, correct: bool, timeSpent: nat)
    requires s.mastered
    ensures (if correct then s.RecordCorrectAnswer(timeSpent) else s.RecordIncorrectAnswer()).mastered
  {
  }

  /** Recording a correct answer reaches mastery exactly at the threshold. */
  lemma MasteryThreshold(s: TableScore, timeSpent: nat)
    requires s.Valid() && !s.mastered
    ensures var r := s.RecordCorrectAnswer(timeSpent);
            r.mastered <==> r.attempts >= MasteryAttempts && r.Accuracy() >= MasteryPercent as real
  {
    var r := s.RecordCorrectAnswer(timeSpent);
    AtLeast(r.correct, r.attempts, MasteryPercent);
  }

  datatype AchievementType = FirstSteps | PerfectTen | Master | SpeedDemon | Centurion

  /** An earned achievement; its id names its type. */
  datatype Achievement = Achievement(id: string, kind: AchievementType)

  /** The id under which each achievement is stored. */
  function IdOf(kind: AchievementType): string {
    match kind
    case FirstSteps => "first_steps"
    case PerfectTen => "perfect_10"
    case Master => "master"
    case SpeedDemon => "speed_demon"
    case Centurion => "centurion"
  }

  predicate HasId(achievements: seq<Achievement>, id: string) {
    exists i :: 0 <= i < |achievements| && achievements[i].id == id
  }

  predicate NoDuplicateIds(achievements: seq<Achievement>) {
    forall i, j :: 0 <= i < j < |achievements| ==> achievements[i].id != achievements[j].id
  }

  /** The inputs of the unlock rules. */
  datatype Totals = Totals(answered: nat, streak: nat, completedCount: nat, fastCount: nat)

  /** The four unlock rules; `centurion` has none. */
  predicate RuleHolds(kind: AchievementType, t: Totals) {
    match kind
    case FirstSteps => t.answered >= 10
    case PerfectTen => t.streak >= 10
    case Master => t.completedCount >= 11
    case SpeedDemon => t.fastCount >= 5
    case Centurion => false
  }

  /** Appends `kind` when its rule holds and its id is not yet present. */
  function Award(achievements: seq<Achievement>, kind: AchievementType, t: Totals): seq<Achievement> {
    if RuleHolds(kind, t) && !HasId(achievements, IdOf(kind))
    then achievements + [Achievement(IdOf(kind), kind)]
    else achievements
  }

  /** `checkAchievements()`: the four rules, in the source's order. */
  function Checked(achievements: seq<Achievement>, t: Totals): seq<Achievement> {
    Award(Award(Award(Award(achievements, FirstSteps, t), PerfectTen, t), Master, t), SpeedDemon, t)
  }

  /** `r` is `a` with only achievements appended, each one whose rule holds. */
  predicate Extends(a: seq<Achievement>, r: seq<Achievement>, t: Totals) {
    && |a| <= |r| && r[..|a|] == a
    && forall i :: |a| <= i < |r| ==> RuleHolds(r[i].kind, t)
  }

  lemma ExtendsTransitive(a: seq<Achievement>, b: seq<Achievement>, c: seq<Achievement>, t: Totals)
    requires Extends(a, b, t) && Extends(b, c, t)
    ensures Extends(a, c, t)
  {
    assert c[..|a|] == b[..|a|];
    forall i | |a| <= i < |c| ensures RuleHolds(c[i].kind, t) {
      if i < |b| {
        assert c[i] == b[i];
      }
    }
  }

  /** An extension keeps every id already present. */
  lemma ExtendsKeepsIds(a: seq<Achievement>, r: seq<Achievement>, t: Totals)
    requires Extends(a, r, t)
    ensures forall id :: HasId(a, id) ==> HasId(r, id)
  {
    forall id | HasId(a, id) ensures HasId(r, id) {
      var k :| 0 <= k < |a| && a[k].id == id;
      assert r[k] == a[k];
    }
  }

  lemma AwardFacts(a: seq<Achievement>, kind: AchievementType, t: Totals)
    requires AchievementsValid(a)
    ensures Extends(a, Award(a, kind, t), t)
    ensures AchievementsValid(Award(a, kind, t))
    ensures RuleHolds(kind, t) ==> HasId(Award(a, kind, t), IdOf(kind))
  {
    var r := Award(a, kind, t);
    if RuleHolds(kind, t) && !HasId(a, IdOf(kind)) {
      assert r[|a|].id == IdOf(kind);
      forall i, j | 0 <= i < j < |r| ensures r[i].id != r[j].id {
        if j < |a| {
          assert r[i] == a[i] && r[j] == a[j];
        } else {
          assert r[i] == a[i];
        }
      }
    }
  }

  /** One rule check on a list that already extends `a0`: the facts `AwardFacts` gives, carried back to `a0`. */
  lemma AwardStep(a0: seq<Achievement>, a: seq<Achievement>, kind: AchievementType, t: Totals)
    requires AchievementsValid(a) && Extends(a0, a, t)
    ensures AchievementsValid(Award(a, kind, t))
    ensures Extends(a0, Award(a, kind, t), t)
    ensures RuleHolds(kind, t) ==> HasId(Award(a, kind, t), IdOf(kind))
    ensures forall id :: HasId(a, id) ==> HasId(Award(a, kind, t), id)
  {
    AwardFacts(a, kind, t);
    ExtendsKeepsIds(a, Award(a, kind, t), t);
    ExtendsTransitive(a0, a, Award(a, kind, t), t);
  }

  /** In a list without duplicate ids, nothing after a prefix repeats an id of the prefix. */
  lemma AppendedAreNew(a: seq<Achievement>, r: seq<Achievement>)
    requires |a| <= |r| && r[..|a|] == a && NoDuplicateIds(r)
    ensures forall i :: |a| <= i < |r| ==> !HasId(a, r[i].id)
  {
    forall i | |a| <= i < |r| ensures !HasId(a, r[i].id) {
      forall k | 0 <= k < |a| ensures a[k].id != r[i].id {
        assert a[k] == r[k];
      }
    }
  }

  /**
   * Checking only appends, never duplicates an id, never produces `centurion`,
   * appends only achievements whose rule holds and which were absent, and
   * afterwards every rule that holds has its achievement.
   */
  lemma CheckedFacts(achievements: seq<Achievement>, t: Totals)
    requires AchievementsValid(achievements)
    ensures Extends(achievements, Checked(achievements, t), t)
    ensures AchievementsValid(Checked(achievements, t))
    ensures forall i :: |achievements| <= i < |Checked(achievements, t)| ==>
              !HasId(achievements, Checked(achievements, t)[i].id)
    ensures forall kind :: RuleHolds(kind, t) ==> HasId(Checked(achievements, t), IdOf(kind))
  {
    var a1 := Award(achievements, FirstSteps, t);
    var a2 := Award(a1, PerfectTen, t);
    var a3 := Award(a2, Master, t);
    var a4 := Award(a3, SpeedDemon, t);
    assert achievements[..|achievements|] == achievements;
    AwardStep(achievements, achievements, FirstSteps, t);
    AwardStep(achievements, a1, PerfectTen, t);
    AwardStep(achievements, a2, Master, t);
    AwardStep(achievements, a3, SpeedDemon, t);
    AppendedAreNew(achievements, a4);
    forall kind | RuleHolds(kind, t) ensures HasId(a4, IdOf(kind)) {
      match kind
      case FirstSteps =>
      case PerfectTen =>
      case Master =>
      case SpeedDemon =>
    }
  }

  lemma CheckedValid(achievements: seq<Achievement>, t: Totals)
    requires AchievementsValid(achievements)
    ensures AchievementsValid(Checked(achievements, t))
  {
    CheckedFacts(achievements, t);
  }

  /** One rule check never adds the id `centurion`. */
  lemma AwardKeepsOutCenturion(a: seq<Achievement>, kind: AchievementType, t: Totals)
    requires !HasId(a, IdOf(Centurion))
    ensures !HasId(Award(a, kind, t), IdOf(Centurion))
  {
    var r := Award(a, kind, t);
    if RuleHolds(kind, t) && !HasId(a, IdOf(kind)) {
      forall i | 0 <= i < |r| ensures r[i].id != IdOf(Centurion) {
        if i < |a| {
          assert r[i] == a[i];
        } else {
          assert r[i].id == IdOf(kind);
        }
      }
    }
  }

  /** `checkAchievements()` never awards `centurion`: a list without it still lacks it after any check. */
  lemma NeverCenturion(achievements: seq<Achievement>, t: Totals)
    requires !HasId(achievements, IdOf(Centurion))
    ensures !HasId(Checked(achievements, t), IdOf(Centurion))
  {
    var a1 := Award(achievements, FirstSteps, t);
    var a2 := Award(a1, PerfectTen, t);
    var a3 := Award(a2, Master, t);
    AwardKeepsOutCenturion(achievements, FirstSteps, t);
    AwardKeepsOutCenturion(a1, PerfectTen, t);
    AwardKeepsOutCenturion(a2, Master, t);
    AwardKeepsOutCenturion(a3, SpeedDemon, t);
  }

  /** Checking twice adds nothing the first check did not. */
  lemma CheckedIdempotent(achievements: seq<Achievement>, t: Totals)
    requires AchievementsValid(achievements)
    ensures Checked(Checked(achievements, t), t) == Checked(achievements, t)
  {
    CheckedFacts(achievements, t);
  }

  /** The tables whose average time is under the limit (`tableScores.values.filter { ... }`). */
  function FastTables(scores: map<int, TableScore>): set<int> {
    set t | t in scores && scores[t].IsFast()
  }

  /** The score that `recordAnswer` updates: the existing one, or a fresh one for a new table. */
  function ScoreFor(scores: map<int, TableScore>, table: int): TableScore {
    if table in scores then scores[table] else NewTableScore(table)
  }

  /** The scores after one answer for `table`: only that table's score changes. */
  function Recorded(scores: map<int, TableScore>, table: int, correct: bool, timeSpent: nat): map<int, TableScore> {
    var s := ScoreFor(scores, table);
    scores[table := if correct then s.RecordCorrectAnswer(timeSpent) else s.RecordIncorrectAnswer()]
  }

  /**
   * Recording an answer keeps every score valid and under its own table,
   * touches no other table, counts one attempt, and never takes mastery away.
   */
  lemma UpdateKeepsScores(scores: map<int, TableScore>, table: int, correct: bool, timeSpent: nat)
    requires ScoresValid(scores)
    ensures var r := Recorded(scores, table, correct, timeSpent);
            && ScoresValid(r)
            && r.Keys == scores.Keys + {table}
            && (forall t :: t in scores && t != table ==> r[t] == scores[t])
            && r[table].attempts == ScoreFor(scores, table).attempts + 1
            && r[table].correct == ScoreFor(scores, table).correct + (if correct then 1 else 0)
            && (forall t :: t in scores && scores[t].mastered ==> r[t].mastered)
  {
  }

  /** Every stored score is valid and filed under its own table number. */
  predicate ScoresValid(scores: map<int, TableScore>) {
    forall t :: t in scores ==> scores[t].tableNumber == t && scores[t].Valid()
  }

  /** Every stored achievement is one of the four that can be unlocked, under its own id. */
  predicate AchievementsValid(achievements: seq<Achievement>) {
    && NoDuplicateIds(achievements)
    && forall i :: 0 <= i < |achievements| ==>
         achievements[i].kind != Centurion && achievements[i].id == IdOf(achievements[i].kind)
  }

  /** The player's durable progress. */
  class UserProgress {
    var completedTables: set<int>
    var tableScores: map<int, TableScore>
    var totalQuestionsAnswered: nat
    var correctAnswers: nat
    var streak: nat
    var bestStreak: nat
    var stars: nat
    var achievements: seq<Achievement>

    ghost predicate Valid()
      reads this
    {
      && correctAnswers <= totalQuestionsAnswered
      && streak <= bestStreak <= correctAnswers
      && ScoresValid(tableScores)
      && AchievementsValid(achievements)
    }

    /** What the unlock rules look at. */
    function CurrentTotals(): Totals
      reads this
    {
      Totals(totalQuestionsAnswered, streak, |completedTables|, |FastTables(tableScores)|)
    }

    /** `UserProgress()`: everything zero or empty. */
    constructor ()
      ensures Valid()
      ensures completedTables == {} && tableScores == map[] && achievements == []
      ensures totalQuestionsAnswered == 0 && correctAnswers == 0 && streak == 0 && bestStreak == 0 && stars == 0
    {
      completedTables := {};
      tableScores := map[];
      totalQuestionsAnswered := 0;
      correctAnswers := 0;
      streak := 0;
      bestStreak := 0;
      stars := 0;
      achievements := [];
    }

    /** Overall `correctAnswers / totalQuestionsAnswered * 100`, 0 before any answer. */
    function Accuracy(): (r: real)
      reads this
      ensures totalQuestionsAnswered == 0 ==> r == 0.0
      ensures correctAnswers <= totalQuestionsAnswered ==> 0.0 <= r <= 100.0
    {
      if totalQuestionsAnswered == 0 then 0.0
      else
        ShareFacts(correctAnswers, totalQuestionsAnswered);
        Percentage(correctAnswers, totalQuestionsAnswered)
    }

    /** `recordAnswer(table:correct:timeSpent:)`: the counters and the table score, then the unlock checks. */
    method RecordAnswer(table: int, correct: bool, timeSpent: nat)
      requires Valid()
      modifies this
      ensures Valid()
      ensures totalQuestionsAnswered == old(totalQuestionsAnswered) + 1
      ensures correctAnswers == old(correctAnswers) + (if correct then 1 else 0)
      ensures streak == (if correct then old(streak) + 1 else 0)
      ensures bestStreak == (if correct && old(streak) + 1 > old(bestStreak) then old(streak) + 1 else old(bestStreak))
      ensures tableScores == Recorded(old(tableScores), table, correct, timeSpent)
      ensures stars == old(stars) + (if correct && totalQuestionsAnswered % 10 == 0 then 1 else 0)
      ensures completedTables == old(completedTables)
      ensures achievements == Checked(old(achievements), CurrentTotals())
    {
      UpdateCounters(table, correct, timeSpent);
      CheckAchievements();
    }

    /** The part of `recordAnswer` before `checkAchievements()`. */
    method UpdateCounters(table: int, correct: bool, timeSpent: nat)
      requires Valid()
      modifies this
      ensures Valid()
      ensures totalQuestionsAnswered == old(totalQuestionsAnswered) + 1
      ensures correctAnswers == old(correctAnswers) + (if correct then 1 else 0)
      ensures streak == (if correct then old(streak) + 1 else 0)
      ensures bestStreak == (if correct && old(streak) + 1 > old(bestStreak) then old(streak) + 1 else old(bestStreak))
      ensures tableScores == Recorded(old(tableScores), table, correct, timeSpent)
      ensures stars == old(stars) + (if correct && totalQuestionsAnswered % 10 == 0 then 1 else 0)
      ensures completedTables == old(completedTables) && achievements == old(achievements)
    {
      totalQuestionsAnswered := totalQuestionsAnswered + 1;
      if correct {
        correctAnswers := correctAnswers + 1;
        streak := streak + 1;
        bestStreak := if bestStreak >= streak then bestStreak else streak;
        UpdateTableScore(table, true, timeSpent);
        // a star for every tenth answer, when that answer is correct
        if totalQuestionsAnswered % 10 == 0 {
          stars := stars + 1;
        }
      } else {
        streak := 0;
        UpdateTableScore(table, false, timeSpent);
      }
    }

    /** The `tableScores[table]` update of `recordAnswer`: create the score if missing, then record. */
    method UpdateTableScore(table: int, correct: bool, timeSpent: nat)
      requires ScoresValid(tableScores)
      modifies this`tableScores
      ensures ScoresValid(tableScores)
      ensures tableScores == Recorded(old(tableScores), table, correct, timeSpent)
    {
      ghost var before := tableScores;
      if table !in tableScores {
        tableScores := tableScores[table := NewTableScore(table)];
      }
      if correct {
        tableScores := tableScores[table := tableScores[table].RecordCorrectAnswer(timeSpent)];
      } else {
        tableScores := tableScores[table := tableScores[table].RecordIncorrectAnswer()];
      }
      UpdateKeepsScores(before, table, correct, timeSpent);
    }

    /** `completeTable(_:)`: set insertion, and five stars on every call. */
    method CompleteTable(table: int)
      requires Valid()
      modifies this
      ensures Valid()
      ensures completedTables == old(completedTables) + {table}
      ensures stars == old(stars) + 5
      ensures achievements == Checked(old(achievements), CurrentTotals())
      ensures tableScores == old(tableScores) && streak == old(streak) && bestStreak == old(bestStreak)
      ensures totalQuestionsAnswered == old(totalQuestionsAnswered) && correctAnswers == old(correctAnswers)
    {
      completedTables := completedTables + {table};
      stars := stars + 5;
      CheckAchievements();
    }

    /** `checkAchievements()`. */
    method CheckAchievements()
      requires AchievementsValid(achievements)
      modifies this`achievements
      ensures AchievementsValid(achievements)
      ensures achievements == Checked(old(achievements), CurrentTotals())
    {
      ghost var t := CurrentTotals();
      ghost var a0 := achievements;
      CheckedValid(a0, t);
      if totalQuestionsAnswered >= 10 && !HasId(achievements, "first_steps") {
        achievements := achievements + [Achievement("first_steps", FirstSteps)];
      }
      assert achievements == Award(a0, FirstSteps, t);
      ghost var a1 := achievements;
      if streak >= 10 && !HasId(achievements, "perfect_10") {
        achievements := achievements + [Achievement("perfect_10", PerfectTen)];
      }
      assert achievements == Award(a1, PerfectTen, t);
      ghost var a2 := achievements;
      if |completedTables| >= 11 && !HasId(achievements, "master") {
        achievements := achievements + [Achievement("master", Master)];
      }
      assert achievements == Award(a2, Master, t);
      ghost var a3 := achievements;
      var fastAnswers := |FastTables(tableScores)|;
      if fastAnswers >= 5 && !HasId(achievements, "speed_demon") {
        achievements := achievements + [Achievement("speed_demon", SpeedDemon)];
      }
      assert achievements == Award(a3, SpeedDemon, t);
    }
  }
}
