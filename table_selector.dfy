/**
 * The table picker (Views/TableSelectorView.swift): the tables on offer, the
 * button that offers ten more, and what each table's card shows beneath
 * its number.
 */
module TableSelector {
  import opened Wrappers
  import opened SwiftStd
  import opened Settings
  import opened Progress

  /** The highest table the range can be expanded to. */
  const TableLimit: int := 100

  /** `availableTables`: `Array(0...maxTableNumber)`; the closed range traps for a negative bound. */
  function AvailableTables(maxTableNumber: int): (r: seq<int>)
    requires maxTableNumber >= 0
    ensures |r| == maxTableNumber + 1
    ensures forall i :: 0 <= i < |r| ==> r[i] == i
    ensures forall i, j :: 0 <= i < j < |r| ==> r[i] < r[j]
  {
    seq(maxTableNumber + 1, i => i)
  }

  /** The new bound after one tap on the expand button: ten more, at most 100. */
  function ExpandedMax(maxTableNumber: int): (r: int)
    ensures r <= TableLimit
    ensures maxTableNumber < TableLimit ==> maxTableNumber < r <= maxTableNumber + 10
    ensures r == TableLimit <==> maxTableNumber >= TableLimit - 10
  {
    if maxTableNumber + 10 < TableLimit then maxTableNumber + 10 else TableLimit
  }

  /** `k` taps on the button, each taken only while it is shown (bound below 100). */
  function ExpandTimes(maxTableNumber: int, k: nat): int
    decreases k
  {
    if k == 0 || maxTableNumber >= TableLimit then maxTableNumber
    else ExpandTimes(ExpandedMax(maxTableNumber), k - 1)
  }

  /** From any bound up to 100, `k` taps give ten more per tap until 100 is reached, and never more. */
  lemma {:induction false} ExpandTimesClamps(maxTableNumber: int, k: nat)
    requires maxTableNumber <= TableLimit
    ensures ExpandTimes(maxTableNumber, k) == if maxTableNumber + 10 * k < TableLimit then maxTableNumber + 10 * k else TableLimit
    decreases k
  {
    if k > 0 && maxTableNumber < TableLimit {
      ExpandTimesClamps(ExpandedMax(maxTableNumber), k - 1);
    }
  }

  /**
   * The app state's settings and the defaults store they are saved to. The
   * app starts from `AppSettings()` whatever the store holds: nothing calls
   * `AppSettings.load()`.
   */
  class AppState {
    var settings: AppSettings
    var defaults: Store

    /** `AppState()`: the default settings over the store as it is. */
    constructor (defaults: Store)
      ensures settings == Default() && this.defaults == defaults
    {
      this.defaults := defaults;
      settings := Default();
    }

    /**
     * The expand button's action: while the bound is below 100 it is raised
     * by ten (at most to 100) and the settings are saved, so that the store
     * then loads back exactly the settings in force; otherwise the button is
     * not shown and nothing changes.
     */
    method ExpandRange()
      modifies this
      ensures old(settings.maxTableNumber) >= TableLimit ==> unchanged(this)
      ensures old(settings.maxTableNumber) < TableLimit ==>
                && settings == old(settings).(maxTableNumber := ExpandedMax(old(settings.maxTableNumber)))
                && defaults == Save(old(defaults), settings)
                && Load(defaults) == settings
      ensures old(settings.maxTableNumber) <= settings.maxTableNumber
    {
      if settings.maxTableNumber < TableLimit {
        settings := settings.(maxTableNumber := if settings.maxTableNumber + 10 < TableLimit then settings.maxTableNumber + 10 else TableLimit);
        defaults := Save(defaults, settings);
        LoadAfterSave(old(defaults), settings);
      }
    }
  }

  /** What a card shows beneath its table number. */
  datatype Indicator =
    | NewTable
    | Score(crown: bool, percent: int)

  /** The card's indicator: "new" with no score yet, otherwise the crown when mastered and `Int(accuracy)` percent. */
  function CardIndicator(progress: Option<TableScore>): (r: Indicator)
    ensures r.NewTable? <==> progress.None?
    ensures r.Score? ==> (r.crown <==> progress.value.mastered)
    ensures r.Score? && progress.value.Valid() ==> 0 <= r.percent <= 100
  {
    match progress
    case None => NewTable
    case Some(score) => Score(score.mastered, Truncate(score.Accuracy()))
  }

  /** The card for a table, looked up in the player's scores. */
  function CardFor(scores: map<int, TableScore>, table: int): Indicator {
    CardIndicator(if table in scores then Some(scores[table]) else None)
  }

  /**
   * After any answer for a table its card is no longer "new"; and a crown,
   * once shown, stays through every later answer.
   */
  lemma CardAfterAnswer(scores: map<int, TableScore>, table: int, correct: bool, timeSpent: nat)
    requires ScoresValid(scores)
    ensures !CardFor(Recorded(scores, table, correct, timeSpent), table).NewTable?
    ensures CardFor(scores, table).Score? && CardFor(scores, table).crown ==>
              CardFor(Recorded(scores, table, correct, timeSpent), table).crown
  {
    UpdateKeepsScores(scores, table, correct, timeSpent);
  }

  /** A crowned card belongs to a table with at least ten attempts recorded. */
  lemma CrownMeansMastery(scores: map<int, TableScore>, table: int)
    requires ScoresValid(scores)
    ensures var card := CardFor(scores, table);
            card.Score? && card.crown ==> scores[table].attempts >= MasteryAttempts
  {
  }
}
