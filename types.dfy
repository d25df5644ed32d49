/** Optional values and the `{ success, error }` shape every IPC handler answers with. */
module Wrappers {

  datatype Option<T> = None | Some(value: T) {
    function GetOr(default: T): T {
      if Some? then value else default
    }
  }

  datatype Outcome = Success | Failure(error: string)
}

/** The records of src/types/index.ts, the documents stored in a vault, and the
    application state with its actions.

    The reducer that interprets the actions (AppContext) is not part of this model:
    `Reduce` gives each action the smallest meaning its name and payload allow. */
module Types {
  import opened Wrappers

  datatype Theme = DarkTheme | LightTheme
  datatype WeightUnit = Kg | Lbs
  datatype Gender = Male | Female
  datatype ActivityLevel = Sedentary | Light | Moderate | Active | VeryActive

  datatype DangerZone = DangerZone(start: int, end: int)

  datatype Config = Config(
    vaultPath: string,
    theme: Theme,
    notifications: bool,
    dangerZones: seq<DangerZone>,
    weightUnit: WeightUnit)

  /** `avatar` is either a path relative to the vault (the stored form) or a
      `data:` URI (the form held in memory for display). */
  datatype Profile = Profile(
    name: Option<string>,
    avatar: Option<string>,
    weight: real,  // kg
    height: real,  // cm
    tmb: real,     // kcal per day
    age: int,
    gender: Gender,
    activityLevel: ActivityLevel)

  datatype FastType = FastType(id: string, name: string, hours: int, isCustom: bool)

  datatype FastGoal = FastGoal(targetHours: int, fastType: Option<FastType>)

  /** A completed fast; times in epoch milliseconds, `duration` in seconds, `weightLoss` in kg. */
  datatype FastEntry = FastEntry(id: string, startTime: int, endTime: int, duration: int, weightLoss: real)

  /** A journal entry. `date` is the instant its ISO text denotes, in epoch milliseconds. */
  datatype ProgressEntry = ProgressEntry(
    id: string,
    date: int,
    weight: Option<real>,
    photoPath: Option<string>,
    notes: Option<string>)

  /** A journal entry as `history:get-all` returns it, with its photo inlined. */
  datatype EnrichedEntry = EnrichedEntry(entry: ProgressEntry, photoBase64: Option<string>)

  datatype History = History(fasts: seq<FastEntry>, progressEntries: Option<seq<ProgressEntry>>)

  /** The content of active-fast.json. */
  datatype ActiveFast = ActiveFast(isActive: bool, startTime: Option<int>, targetHours: Option<int>)

  datatype ActiveView = TimerView | HistoryView | ProfileView

  datatype CurrentFast = CurrentFast(startTime: Option<int>, isActive: bool, targetHours: Option<int>)

  datatype AppState = AppState(
    vaultPath: Option<string>,
    config: Option<Config>,
    profile: Option<Profile>,
    history: Option<History>,
    fastGoal: Option<FastGoal>,
    activeView: ActiveView,
    currentFast: CurrentFast)

  datatype Action =
    | SetVaultPath(path: string)
    | SetConfig(config: Config)
    | SetProfile(profile: Profile)
    | SetHistory(history: History)
    | SetFastGoal(goal: FastGoal)
    | SetActiveView(view: ActiveView)
    | StartFast(startTime: int, targetHours: int)
    | EndFast
    | ResetApp

  const IdleFast := CurrentFast(None, false, None)

  const InitialState := AppState(None, None, None, None, None, TimerView, IdleFast)

  /** Assumed reducer: each `SET_*` action replaces its field, `START_FAST` records a
      running fast, `END_FAST` returns to idle and `RESET_APP` restores the initial state. */
  function Reduce(s: AppState, a: Action): AppState {
    match a
    case SetVaultPath(p) => s.(vaultPath := Some(p))
    case SetConfig(c) => s.(config := Some(c))
    case SetProfile(p) => s.(profile := Some(p))
    case SetHistory(h) => s.(history := Some(h))
    case SetFastGoal(g) => s.(fastGoal := Some(g))
    case SetActiveView(v) => s.(activeView := v)
    case StartFast(t, h) => s.(currentFast := CurrentFast(Some(t), true, Some(h)))
    case EndFast => s.(currentFast := IdleFast)
    case ResetApp => InitialState
  }

  /** JavaScript truthiness of a `string | null`: present and non-empty. */
  predicate Present(s: Option<string>) {
    s.Some? && s.value != ""
  }

  /** JavaScript truthiness of a `number | null` holding an integer. */
  predicate NonZero(n: Option<int>) {
    n.Some? && n.value != 0
  }
}
