/**
 * The app's settings (Models/AppSettings.swift): default values, the time
 * limit each difficulty sets, and saving to and loading from the defaults
 * store.
 *
 * The store (`UserDefaults`) is a map from keys to stored data, and the JSON
 * coding of a settings value is a fixed-layout sequence of integers: the
 * three toggles, the two numbers, the timer toggle and the difficulty.
 * Data of any other shape does not decode, as JSON with a missing or
 * ill-typed field does not.
 */
module Settings {
  import opened Wrappers

  datatype Difficulty = Easy | Normal | Hard

  /** `Difficulty.timeLimit`, in whole seconds; `None` means untimed. */
  function TimeLimit(d: Difficulty): (r: Option<nat>)
    ensures r.None? <==> d == Easy
    ensures r.Some? ==> r.value > 0
    ensures d == Normal ==> r == Some(15)
    ensures d == Hard ==> r == Some(8)
  {
    match d
    case Easy => None
    case Normal => Some(15)
    case Hard => Some(8)
  }

  /** Hard questions get strictly less time than normal ones, and easy ones are untimed. */
  lemma HardIsShorter()
    ensures TimeLimit(Easy).None?
    ensures TimeLimit(Hard).Some? && TimeLimit(Normal).Some?
    ensures 0 < TimeLimit(Hard).value < TimeLimit(Normal).value
  {
  }

  datatype AppSettings = AppSettings(
    soundEnabled: bool,
    musicEnabled: bool,
    hapticEnabled: bool,
    maxTableNumber: int,
    questionsPerSession: int,
    showTimer: bool,
    difficulty: Difficulty)

  /** `AppSettings()`: every toggle on, ten tables, ten questions, normal difficulty. */
  function Default(): (s: AppSettings)
    ensures s.soundEnabled && s.musicEnabled && s.hapticEnabled && s.showTimer
    ensures s.maxTableNumber == 10 && s.questionsPerSession == 10
    ensures s.difficulty == Normal
  {
    AppSettings(true, true, true, 10, 10, true, Normal)
  }

  /** The key `save` writes and `load` reads. */
  const SettingsKey: string := "appSettings"

  type Store = map<string, seq<int>>

  function BoolCode(b: bool): int {
    if b then 1 else 0
  }

  function DifficultyCode(d: Difficulty): int {
    match d
    case Easy => 0
    case Normal => 1
    case Hard => 2
  }

  /** The encoded form of a settings value. */
  function Encode(s: AppSettings): (data: seq<int>)
    ensures |data| == 7
  {
    [BoolCode(s.soundEnabled), BoolCode(s.musicEnabled), BoolCode(s.hapticEnabled),
     s.maxTableNumber, s.questionsPerSession, BoolCode(s.showTimer), DifficultyCode(s.difficulty)]
  }

  function DecodeBool(x: int): Option<bool> {
    if x == 1 then Some(true) else if x == 0 then Some(false) else None
  }

  function DecodeDifficulty(x: int): Option<Difficulty> {
    if x == 0 then Some(Easy) else if x == 1 then Some(Normal) else if x == 2 then Some(Hard) else None
  }

  /** Decoding: fails on data that is not the encoding of some settings value. */
  function Decode(data: seq<int>): (r: Option<AppSettings>)
    ensures |data| != 7 ==> r.None?
  {
    if |data| != 7 then None
    else
      var sound := DecodeBool(data[0]);
      var music := DecodeBool(data[1]);
      var haptic := DecodeBool(data[2]);
      var timer := DecodeBool(data[5]);
      var difficulty := DecodeDifficulty(data[6]);
      if sound.Some? && music.Some? && haptic.Some? && timer.Some? && difficulty.Some? then
        Some(AppSettings(sound.value, music.value, haptic.value, data[3], data[4], timer.value, difficulty.value))
      else
        None
  }

  /** Every settings value survives encoding. */
  lemma DecodeEncode(s: AppSettings)
    ensures Decode(Encode(s)) == Some(s)
  {
  }

  /** Whatever decodes was produced by encoding what it decodes to. */
  lemma EncodeDecode(data: seq<int>)
    requires Decode(data).Some?
    ensures Encode(Decode(data).value) == data
  {
    assert data == [data[0], data[1], data[2], data[3], data[4], data[5], data[6]];
  }

  /** `save()`: the encoding under `"appSettings"`; no other key changes. */
  function Save(store: Store, s: AppSettings): (r: Store)
    ensures r.Keys == store.Keys + {SettingsKey}
    ensures forall k :: k in store && k != SettingsKey ==> r[k] == store[k]
    ensures Decode(r[SettingsKey]) == Some(s)
  {
    DecodeEncode(s);
    store[SettingsKey := Encode(s)]
  }

  /** `AppSettings.load()`: the stored value when there is one that decodes, otherwise the defaults. */
  function Load(store: Store): (r: AppSettings)
    ensures SettingsKey !in store ==> r == Default()
    ensures SettingsKey in store && Decode(store[SettingsKey]).None? ==> r == Default()
    ensures SettingsKey in store && Decode(store[SettingsKey]).Some? ==> r == Decode(store[SettingsKey]).value
  {
    if SettingsKey in store then Decode(store[SettingsKey]).GetOr(Default()) else Default()
  }

  /** Loading after saving gives back what was saved. */
  lemma LoadAfterSave(store: Store, s: AppSettings)
    ensures Load(Save(store, s)) == s
  {
  }

  /** Saving what was just loaded from a store that held valid settings leaves the store as it was. */
  lemma SaveAfterLoad(store: Store)
    requires SettingsKey in store && Decode(store[SettingsKey]).Some?
    ensures Save(store, Load(store)) == store
  {
    EncodeDecode(store[SettingsKey]);
  }
}
