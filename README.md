# help_me_fast in Dafny

A model of the core of help_me_fast, a desktop fasting tracker built on Electron and React.
It keeps everything in a *vault*, a folder the user chooses. The vault holds:

- `config.json`, the configuration;
- `profile.json`, the user's profile;
- `history.json`, the finished fasts and the progress journal;
- `active-fast.json`, the running fast;
- `avatar.png`;
- `photos/`, the photos attached to journal entries.

The model covers these parts:

- **The main process** (`MainProcess`, `Vfs`). The IPC handlers of the Electron main
  process act on a file map from path to node: a directory, a parsed JSON document, or a
  binary file kept as its base64 text. The class `MainProcess.Main` holds that map and
  changes it in place. Its handlers are:
  - the settings store (`settings.json` in the user-data folder);
  - vault initialisation;
  - saving and loading the avatar;
  - the generic read, write and exists calls;
  - the journal's add, get-all and delete.
- **The vault session** (`VaultSession`). This is the `useVault` hook: the application
  state, and the loads and saves that connect it to the vault. The class
  `VaultSession.Session` holds the state and calls the main process directly.
- **The fasting timer** (`FastingTimer`). Starting and ending a fast, the elapsed time,
  the countdown, the progress, and the weight-loss formula.
- **The shell and the screens' handlers** (`AppRouting`, `ProfileSetupScreen`,
  `VaultSetupScreen`, `AddEntryModalView`, `HistoryScreenView`, `FastTypeSelectorView`).
  The routing decision, the auto-load of the remembered vault, and each screen's event
  handlers. Each screen is a class whose fields are its React state and whose methods are
  its handlers.
- **The calculators** (`ActivityMultipliers`, `TmbCalculator`, `FastTypes`,
  `MetabolicPhases`, `Motivation`). The Mifflin–St Jeor BMR, the activity factors, the
  fast-type catalogue, the metabolic phase table, and the motivational milestones and
  projections.

Time is passed in as epoch milliseconds (`now`). The random part of an id is a
parameter (`suffix`). The native dialogs' answers are parameters (`picked`). Failures
outside the file model are boolean parameters (`getAllFails`, `rejected`,
`dialogFails`). A call that writes the vault fails exactly when the file model says so:
on a write-protected path (`unwritable`), or where a directory or a non-directory is in
the way. The file model is a flat map from paths to nodes, so a write does not check
that its parent directory exists (see "## Left out").

The application reducer (`AppContext`) is not part of this model. `Types.Reduce` gives
each action the meaning its name and payload state: `SET_*` replaces its field,
`START_FAST` records a running fast, `END_FAST` returns to idle, and `RESET_APP`
restores the initial state. This is an assumption.

## Model

| member | source | states |
|---|---|---|
| Vfs.ExtName | electron/main.ts:130 | `path.extname` is empty or starts with a dot |
| Vfs.MimeOfExtension | electron/main.ts:129-136 | jpg and jpeg give image/jpeg; webp and gif give their own types; every other extension, png included, gives image/png (each as an if-and-only-if) |
| Vfs.ExtNameOfFileName | electron/main.ts:130 | the extension of `dir/stem.ext` is `.ext` when neither part has a separator and `ext` has no dot |
| Vfs.GetMimeOfFileName | electron/main.ts:129-136 | the MIME type of a file named `stem.ext` depends only on the lower-cased `ext` |
| Vfs.MatchImageDataUri | electron/main.ts:252 | a match gives a `\w+` subtype and a payload without line terminators, and the input is exactly `data:image/<subtype>;base64,<payload>` |
| Vfs.MatchImageDataUriComplete | electron/main.ts:252 | every well-formed image data URI matches, with its own subtype and payload (the match's completeness) |
| Vfs.BlobDataUri | electron/main.ts:138-146 | a binary file typed `image/<subtype>` is re-encoded as the data URI of its own bytes |
| Vfs.FileToDataUriIsDataUri | electron/main.ts:138-146 | whatever `fileToDataURI` returns starts with `data:` |
| Strings.TrimStartSuffix | src/components/ProfileSetup/ProfileSetup.tsx:441 | trimming the front drops only white space and line terminators (every Zs space included) and leaves a suffix starting with a visible character |
| Strings.TrimEndPrefix | src/components/ProfileSetup/ProfileSetup.tsx:441 | trimming the end drops only white space and line terminators (every Zs space included) and leaves a prefix ending with a visible character |
| Strings.TrimEmptyIffBlank | src/components/ProfileSetup/ProfileSetup.tsx:441 | `trim()` is empty exactly for all-white-space text; otherwise it starts and ends with a non-space |
| Strings.ToLowerAscii | electron/main.ts:130 | same length; each character is lower-cased |
| Strings.ParseIntOfDecimal | src/components/FastTypeSelector/FastTypeSelector.tsx:173 | `parseInt` of a number's decimal text gives the number back |
| Strings.IntToDecimalInjective | src/utils/fastTypes.ts:18 | different integers print differently |
| Lists.Map | src/components/HistoryScreen/HistoryScreen.tsx:336-339 | same length, element-wise image |
| Lists.Filter | src/components/HistoryScreen/HistoryScreen.tsx:335 | keeps exactly the elements satisfying the predicate, each as often as in the input |
| Lists.Reverse | src/components/HistoryScreen/HistoryScreen.tsx:335 | element `i` of the result is element `n-1-i` of the input |
| Lists.RemoveWithId | electron/main.ts:498 | no survivor has the id, and the list does not grow |
| Lists.RemoveWithIdKeepsOthers | electron/main.ts:498 | every element with another id keeps its number of occurrences |
| Lists.RemoveWithIdSubset | electron/main.ts:498 | nothing new appears: every survivor was in the list |
| Lists.RemoveWithIdAbsent | electron/main.ts:498 | a list without the id is returned unchanged |
| Lists.RemoveWithIdAppend | electron/main.ts:498 | removal distributes over concatenation, so survivors keep their relative order |
| Lists.FilterAppend | src/components/HistoryScreen/HistoryScreen.tsx:335 | filtering distributes over concatenation, so survivors keep their relative order |
| Lists.MapAppend | src/components/HistoryScreen/HistoryScreen.tsx:337-340 | mapping distributes over concatenation |
| Lists.ReverseAppend | src/components/HistoryScreen/HistoryScreen.tsx:336 | reversing a concatenation reverses the order of its parts |
| Lists.SortDesc | electron/main.ts:429-431 | the sort is a permutation of its input |
| Lists.SortDescSorted | electron/main.ts:429-431 | the sorted list is ordered newest first and is a permutation of its input |
| Lists.SortDescOfSorted | electron/main.ts:429-431 | sorting an ordered list changes nothing |
| Lists.PushThenSort | electron/main.ts:426-431 | pushing onto an ordered list and sorting equals inserting the element behind every entry at least as new |
| Lists.SortDescMap | electron/main.ts:458-472 | adding a photo to each entry, which leaves its date alone, commutes with the sort |
| MainProcess.MergeSettings | electron/main.ts:162-166 | the merged keys are the union; new values win; every other old key keeps its value |
| MainProcess.ValidLastVault | electron/main.ts:173-209 | a path is returned iff it is stored, non-empty and names a directory holding `config.json`; it is the stored value |
| MainProcess.Dirname | electron/main.ts:316 | the parent is `.`, `/`, or a proper prefix of the path followed by a separator |
| MainProcess.DirnameAtLastSeparator | electron/main.ts:316 | the cut is at the last separator: `.` without one, the root when only leading separators exist, and otherwise no separator follows the one after the parent |
| MainProcess.FillIfAbsent | electron/main.ts:365-371 | the document is added only where the path is absent; every existing path is unchanged; nothing else is added |
| MainProcess.InitVaultIdempotent | electron/main.ts:336-379 | initialising a vault twice gives the same files as initialising it once |
| MainProcess.InitVaultFilesContent | electron/main.ts:343-371 | no existing file changes; the three documents exist; each one that was absent holds its default |
| MainProcess.InitVaultAddsNoOtherDir | electron/main.ts:336-379 | the only directory initialisation can add is the vault itself |
| MainProcess.Journal | electron/main.ts:389-395 | the history add-entry starts from always has a journal, and keeps the stored fasts |
| MainProcess.AddToJournal | electron/main.ts:426-431 | the journal gains exactly the new entry (as a multiset) and is ordered newest first |
| MainProcess.AddToSortedJournal | electron/main.ts:426-431 | on an ordered journal the new entry goes in behind every entry at least as new |
| MainProcess.StoredEntry | electron/main.ts:398-424 | id from time and suffix; date and weight as given; notes iff non-empty; a photo path iff the photo is an image data URI, named `photos/photo_<now>.<ext>` with jpeg stored as jpg |
| MainProcess.FirstIndexWithId | electron/main.ts:492 | the first index carrying the id, or -1 when none does |
| MainProcess.AfterWriteFootprint | electron/main.ts:314-323 | a write changes only the path and its parent; on success the path holds the document; on failure the path is unchanged |
| MainProcess.AfterWriteElsewhere | electron/main.ts:314-323 | every other path is left as it was |
| MainProcess.AvatarMimeIsPng | electron/main.ts:129-136 | `avatar.png` is typed image/png in every vault |
| MainProcess.AvatarFileDataUri | electron/main.ts:270-301 | the avatar file is re-encoded as a PNG data URI of its own bytes |
| MainProcess.SavedAvatarLoadsBack | electron/main.ts:249-301 | an avatar saved from a data URI and recorded as `avatar.png` loads back with the same payload; a PNG data URI comes back unchanged |
| MainProcess.Main.constructor | electron/main.ts:149-151 | the main process starts from the given files, protected paths and user-data folder |
| MainProcess.Main.Mkdir | electron/main.ts:317 | success iff the directory can be made; the files gain it, or are unchanged |
| MainProcess.Main.WriteNode | electron/main.ts:318 | success iff the path is writable; the path holds the node, or nothing changes |
| MainProcess.Main.Unlink | electron/main.ts:495 | success iff the path is an existing, unprotected file; it is removed, or nothing changes |
| MainProcess.Main.WriteSettings | electron/main.ts:162-166 | on success the stored settings are the merge of the old ones with the data; on failure nothing changes |
| MainProcess.Main.GetLastVault | electron/main.ts:173-209 | a returned path is non-empty, is a vault, and is the stored setting |
| MainProcess.Main.SetLastVault | electron/main.ts:212-221 | success iff the settings file is writable; it then stores the path with every other setting kept, and get-last-vault gives the path back iff it is a vault |
| MainProcess.Main.SaveAvatar | electron/main.ts:249-267 | a non-matching input fails and writes nothing; success iff the vault directory and `avatar.png` can be written; `avatar.png` then holds the payload |
| MainProcess.Main.LoadAvatar | electron/main.ts:270-301 | nothing without a stored avatar; otherwise, when the name resolves against the vault to a binary file, the data URI of its bytes, and nothing for a text file or directory |
| MainProcess.Main.ReadFile | electron/main.ts:304-311 | the parsed document at the path, or nothing when it is missing, binary or unparseable |
| MainProcess.Main.FileExists | electron/main.ts:326-333 | true iff the path exists |
| MainProcess.Main.WriteFile | electron/main.ts:314-323 | success iff the parent can be made and the file written; a successful write reads back the same document |
| MainProcess.Main.InitVault | electron/main.ts:336-379 | success iff every step can be done; the files are then the initialised vault; existing files never change; nothing outside the vault and its three documents appears |
| MainProcess.Main.StorePhoto | electron/main.ts:400-415 | succeeds iff there is no photo, or `photos/` can be made and a matching photo's file written (a non-matching photo is skipped); without a photo nothing happens; a stored photo holds its payload; only the photo paths change |
| MainProcess.Main.AddEntry | electron/main.ts:382-440 | `AddEntryEffect`: the entry is added iff the photo step goes through (no photo, a photo not matching the data-URI pattern once `photos/` exists, or a stored one) and the history file is writable; the added entry is the built one; the journal gains exactly it, sorted newest first, with the fasts kept; a failure leaves the history unchanged; only the history and the photo change |
| MainProcess.Main.GetAll | electron/main.ts:443-480 | every journal entry, with its photo inlined as a data URI when the photo path names a binary file, sorted newest first; empty when the history is unreadable |
| MainProcess.Main.DeleteEntry | electron/main.ts:483-505 | fails without a history; with no journal, succeeds without change; otherwise succeeds iff the history file is writable, whatever the photo removal does, and then exactly the entries with the id go; a failure leaves the history file as it was; only the history and the first match's photo change |
| ActivityMultipliers.Multiplier | src/utils/activityMultipliers.ts:5-11 | every factor lies between 1.2 and 1.9 |
| ActivityMultipliers.MultiplierIncreasing | src/utils/activityMultipliers.ts:5-11 | a more active level has a strictly larger factor |
| ActivityMultipliers.TdeeAboveBmr | src/utils/activityMultipliers.ts:13-15 | for a positive BMR, TDEE exceeds it and is monotone in the level |
| TmbCalculator.BmrGenderGap | src/utils/calculateTMB.ts:7-16 | a man's BMR is 166 above a woman's, other inputs equal |
| TmbCalculator.BmrMonotone | src/utils/calculateTMB.ts:7-16 | BMR rises with weight and height and falls with age, strictly when any of them differs |
| TmbCalculator.TmbScalesBmr | src/utils/calculateTMB.ts:21-24 | TMB is BMR times the activity factor, and exceeds a positive BMR |
| TmbCalculator.TmbOfEmptyProfile | src/utils/calculateTMB.ts:21-24 | the onboarding profile's TMB is 7.75 |
| FastTypes.CommonFastTypesWellFormed | src/utils/fastTypes.ts:3-14 | the catalogue's hours strictly increase, its ids are distinct, and none is custom |
| FastTypes.CreateCustomFastType | src/utils/fastTypes.ts:16-23 | a custom type of exactly the given hours whose id `custom-<h>h` and name `<h> Hours (Custom)` both read back as the hours under `parseInt`, and whose id is never a catalogue id |
| FastTypes.CustomIdsDistinct | src/utils/fastTypes.ts:16-23 | custom types of different durations have different ids, and no custom id is a catalogue id |
| MetabolicPhases.PhasesContiguous | src/utils/metabolicPhases.ts:8-33 | the table starts at 0; each phase ends where the next begins; starts increase; the last phase is open-ended |
| MetabolicPhases.Find | src/utils/metabolicPhases.ts:36 | the first phase containing the hour, or none when no phase does |
| MetabolicPhases.GetCurrentPhase | src/utils/metabolicPhases.ts:35-39 | a phase of the table; it contains a non-negative hour; a negative hour falls back to the last phase |
| MetabolicPhases.CurrentPhaseUnique | src/utils/metabolicPhases.ts:35-39 | any phase containing a non-negative hour is the current one |
| MetabolicPhases.PhaseBoundaries | src/utils/metabolicPhases.ts:8-39 | hours 0, 4, 16 and 24 belong to Anabolic, Catabolic, Fat Burning and Ketosis |
| MetabolicPhases.GetPhaseProgress | src/utils/metabolicPhases.ts:41-52 | at most 1, and within [0, 1] for a non-negative hour |
| MetabolicPhases.AnyZoneCovers | src/utils/metabolicPhases.ts:56 | true iff some zone contains the hour of day |
| MetabolicPhases.IsDangerZone | src/utils/metabolicPhases.ts:54-57 | true iff some zone contains the hour of day; the hours fasted play no part |
| Motivation.MilestonesIncreasing | src/hooks/useMetabolicMotivation.ts:10-24 | the milestones start at hour 0 and strictly increase |
| Motivation.MilestonePhasesAgree | src/hooks/useMetabolicMotivation.ts:10-24 | each milestone's phase label names the metabolic phase its hour falls in |
| Motivation.CurrentMessage | src/hooks/useMetabolicMotivation.ts:53-67 | the milestone with the largest hour not above the hours fasted, or the first one |
| Motivation.FatMatchesWeightLoss | src/hooks/useMetabolicMotivation.ts:34-50 | the fat grams shown are the timer's weight loss in grams, and 1000/7700 of the calories |
| Motivation.ProjectionMatchesTimer | src/hooks/useMetabolicMotivation.ts:70-107 | the projected loss is the timer's loss at the target, `tmb*target/24/7700`, and the projected calories over 7700 |
| FastingTimer.WeightLossLinear | src/hooks/useFastingTimer.ts:109-116 | zero at 0; additive in the duration; `tmb*s/665280000`; strictly increasing when tmb > 0 |
| FastingTimer.Elapsed | src/hooks/useFastingTimer.ts:51-70 | whole seconds since the start, by floor division; 0 when no fast runs |
| FastingTimer.ElapsedShift | src/hooks/useFastingTimer.ts:58-61 | elapsed time depends only on `now - startTime` |
| FastingTimer.JsRem | src/hooks/useFastingTimer.ts:73-75 | JavaScript's `%`: Euclidean for a non-negative dividend, and strictly between `-b` and `b` |
| FastingTimer.DecomposeSum | src/hooks/useFastingTimer.ts:73-75 | `h*3600 + m*60 + s` gives back the count, with minutes and seconds below 60 |
| FastingTimer.Progress | src/hooks/useFastingTimer.ts:81 | at most 1; 0 without a target; 1 once the target is reached; below 1 before it |
| FastingTimer.Remaining | src/hooks/useFastingTimer.ts:84 | never negative; 0 iff the target is reached; before that, remaining plus elapsed is the target |
| FastingTimer.CountdownSum | src/hooks/useFastingTimer.ts:85-87 | the countdown's hours, minutes and seconds add back up to the remaining seconds |
| FastingTimer.FinishedFast | src/hooks/useFastingTimer.ts:24-34 | the end time is the first clock reading and the id `fast-<t>` carries the second one; the start is kept, the duration is in floor seconds, and the weight loss is that of the duration |
| FastingTimer.AppendFast | src/hooks/useFastingTimer.ts:36-39 | the fasts gain exactly the new one at the end, earlier fasts and the journal kept |
| FastingTimer.Timer.constructor | src/hooks/useFastingTimer.ts:9 | elapsed starts at 0 |
| FastingTimer.Timer.StartFast | src/hooks/useFastingTimer.ts:12-18 | the state records a fast from `now`, and the running-fast file is written when a vault is open |
| FastingTimer.Timer.Tick | src/hooks/useFastingTimer.ts:51-70 | elapsed is recomputed from the absolute start |
| FastingTimer.Timer.EndFast | src/hooks/useFastingTimer.ts:21-48 | no-op without start, vault or history; otherwise the finished fast is appended and saved, the idle marker written, the state idle and elapsed 0 |
| FastingTimer.StartedFastResumes | src/hooks/useVault.ts:71-96 | after a restart a persisted fast runs again with the same start, so its elapsed time is as if the app had stayed open |
| FastingTimer.EndedFastStaysEnded | src/hooks/useFastingTimer.ts:36-47 | after endFast's writes, the stored history is the new one and a restart resumes no fast |
| VaultSession.ResolveAvatar | src/hooks/useVault.ts:40-55 | only the avatar changes; a file name is replaced by the loaded data URI or cleared; a data URI or an absent avatar is kept |
| VaultSession.ResolvedAvatarIsDataUri | src/hooks/useVault.ts:40-55 | after resolution an avatar is never a file name |
| VaultSession.ResolveAvatarIdempotent | src/hooks/useVault.ts:40-55 | resolving a resolved profile again changes nothing |
| MainProcess.LoadAvatarIn | electron/main.ts:270-301 | load-avatar answers what the files hold, as the pure `AvatarIn` computes it |
| VaultSession.LoadAvatarIsDataUri | electron/main.ts:270-301 | load-avatar only ever answers with a data URI |
| VaultSession.LoadedFields | src/hooks/useVault.ts:120-125 | each of the four loads sets its own field and nothing else, so their order does not matter |
| VaultSession.FreshVaultLoadsDefaults | src/hooks/useVault.ts:111-132 | a vault freshly initialised in an empty place loads the default documents and no running fast |
| VaultSession.WithTmb | src/hooks/useVault.ts:174-177 | only tmb changes; a non-zero tmb is kept; a zero one is computed |
| VaultSession.WithTmbIdempotent | src/hooks/useVault.ts:174-177 | filling in tmb twice is filling it in once, for every profile |
| VaultSession.SavedProfileLoadsBack | src/hooks/useVault.ts:20-58 | a saved profile loads back with its tmb filled in and its avatar resolved |
| VaultSession.Session.constructor | src/hooks/useVault.ts:6-7 | the session starts in the initial state |
| VaultSession.Session.Dispatch | src/hooks/useVault.ts:7 | the state becomes the reducer's result |
| VaultSession.Session.LoadConfig | src/hooks/useVault.ts:10-17 | the config is loaded when readable, else the state is unchanged |
| VaultSession.Session.LoadProfile | src/hooks/useVault.ts:20-58 | the profile is loaded with its avatar resolved, else the state is unchanged |
| VaultSession.Session.LoadHistory | src/hooks/useVault.ts:61-68 | the history is loaded when readable, else the state is unchanged |
| VaultSession.Session.LoadActiveFast | src/hooks/useVault.ts:71-96 | a stored fast with active flag, start and target is restored; otherwise nothing changes |
| VaultSession.Session.SaveActiveFast | src/hooks/useVault.ts:99-108 | the running-fast file is written to the open vault; otherwise nothing changes |
| VaultSession.Session.InitializeVault | src/hooks/useVault.ts:111-132 | true iff init-vault succeeds; the vault is then open and all four documents loaded; on failure the state is unchanged; no existing file changes |
| VaultSession.Session.SelectVaultFolder | src/hooks/useVault.ts:135-158 | the picked path is returned iff initialising it succeeds; the state is then the vault loaded from the initialised files, and the files are those files with the folder remembered in the settings when they can be written (`OpenedFiles`); otherwise the state is unchanged and no existing file changes |
| VaultSession.Session.SaveConfig | src/hooks/useVault.ts:161-167 | true iff written; only then does the state take the config, which reads back from the vault |
| VaultSession.Session.SaveProfile | src/hooks/useVault.ts:170-186 | writes the profile with tmb filled in to the explicit vault, else the open one; false without a vault; the state is not changed |
| VaultSession.Session.SaveHistory | src/hooks/useVault.ts:189-195 | true iff written; only then does the state take the history, which reads back from the vault |
| VaultSession.Session.DeleteVault | src/hooks/useVault.ts:198-208 | the state is reset whatever happens; the files are exactly the old ones with the settings rewritten to an empty last vault when the settings API exists and the file can be written, and unchanged otherwise |
| AppRouting.Route | src/App.tsx:155-198 | splash iff booting; onboarding iff no vault; the profile form while the profile lacks a weight; otherwise history or profile or dashboard by the active view |
| AppRouting.ProfileGatesViews | src/App.tsx:169-198 | until the profile has a weight every view leads to the profile form; afterwards the active view decides |
| AppRouting.FreshVaultRoutesToProfileSetup | src/App.tsx:169-185 | a freshly initialised vault opens on the profile form |
| AppRouting.ResetShowsOnboarding | src/App.tsx:165-167 | after a reset the shell shows onboarding |
| AppRouting.AppContent.constructor | src/App.tsx:122 | booting, not cancelled |
| AppRouting.AppContent.Unmount | src/App.tsx:150 | the effect is cancelled; booting is kept |
| AppRouting.AppContent.TryAutoLoad | src/App.tsx:125-151 | the remembered vault is initialised only when get-last-vault returned one; booting ends in every outcome unless cancelled; no existing file changes |
| AppRouting.RememberedVaultSkipsOnboarding | src/App.tsx:155-198 | once a vault is open, neither onboarding nor the splash is shown |
| ProfileSetupScreen.Rejection | src/components/ProfileSetup/ProfileSetup.tsx:441-456 | a blank name rejects first; otherwise a missing, NaN or non-positive weight, height or age rejects; otherwise the form is accepted |
| ProfileSetupScreen.FormProfile | src/components/ProfileSetup/ProfileSetup.tsx:460-474 | the avatar of the existing profile is kept, the six form fields are overridden, and tmb is the Mifflin-St Jeor BMR of the form's weight, height, age and gender times the level's factor, which saving keeps |
| ProfileSetupScreen.PersistedAvatar | src/components/ProfileSetup/ProfileSetup.tsx:498-505 | the persisted avatar never starts with `data:`; only the avatar changes |
| ProfileSetupScreen.ConfigWithUnit | src/components/ProfileSetup/ProfileSetup.tsx:488-496 | the chosen unit with the other config fields kept, or the fixed defaults |
| ProfileSetupScreen.AcceptedFormIsComplete | src/components/ProfileSetup/ProfileSetup.tsx:441-474 | an accepted form yields a profile with a non-blank name and positive measurements |
| ProfileSetupScreen.SubmittedProfileOpensViews | src/components/ProfileSetup/ProfileSetup.tsx:522-527 | once the stored profile has a positive weight, reloading it lets the active view decide the screen |
| ProfileSetupScreen.SubmissionFootprint | src/components/ProfileSetup/ProfileSetup.tsx:476-520 | the steps together touch only the vault's avatar, config, profile and history |
| ProfileSetupScreen.WithEntry | src/components/ProfileSetup/ProfileSetup.tsx:507-520 | the journal gains exactly the entry, with the fasts kept |
| ProfileSetupScreen.AvatarOutcome | src/components/ProfileSetup/ProfileSetup.tsx:476-486 | after a submission the avatar file holds the adopted image or is unchanged |
| ProfileSetupScreen.ConfigOutcome | src/components/ProfileSetup/ProfileSetup.tsx:488-496 | the config file holds the chosen config and the state shows it, or both are unchanged |
| ProfileSetupScreen.ProfileOutcome | src/components/ProfileSetup/ProfileSetup.tsx:498-505 | the profile file holds the submitted profile with its avatar as a file name |
| ProfileSetupScreen.JournalOutcome | src/components/ProfileSetup/ProfileSetup.tsx:507-520 | the journal holds the starting weight when it was empty, or is unchanged |
| ProfileSetupScreen.SubmissionOutcome | src/components/ProfileSetup/ProfileSetup.tsx:436-534 | the four steps add up to the whole submission's effect, with vault, view, goal and running fast untouched |
| ProfileSetupScreen.ProfileSetupForm.constructor | src/components/ProfileSetup/ProfileSetup.tsx:362-370 | no change, no error, not loading, no confirmation shown |
| ProfileSetupScreen.ProfileSetupForm.HandleAvatarClick | src/components/ProfileSetup/ProfileSetup.tsx:416-428 | a picked image becomes the preview and marks it changed; otherwise nothing changes |
| ProfileSetupScreen.ProfileSetupForm.HandleDeleteVault | src/components/ProfileSetup/ProfileSetup.tsx:431-434 | the confirmation closes and the vault is forgotten, as in deleteVault |
| ProfileSetupScreen.ProfileSetupForm.SaveChosenAvatar | src/components/ProfileSetup/ProfileSetup.tsx:476-486 | a changed image is adopted only when save-avatar succeeds; a failure keeps the profile going |
| ProfileSetupScreen.ProfileSetupForm.SaveUnitAndProfile | src/components/ProfileSetup/ProfileSetup.tsx:488-505 | the config is saved with the unit, and the profile with its avatar as a file name |
| ProfileSetupScreen.ProfileSetupForm.RecordStartingWeight | src/components/ProfileSetup/ProfileSetup.tsx:507-520 | a starting-weight entry is added only when the journal is empty, and then exactly when the history file can be written; otherwise the history file is unchanged |
| ProfileSetupScreen.ProfileSetupForm.ShowSubmitted | src/components/ProfileSetup/ProfileSetup.tsx:522-527 | the profile is reloaded from the open vault, or set directly without one |
| ProfileSetupScreen.ProfileSetupForm.SubmitProfile | src/components/ProfileSetup/ProfileSetup.tsx:476-527 | the submission's effect on vault and state, as SubmittedToVault describes |
| ProfileSetupScreen.ProfileSetupForm.HandleSubmit | src/components/ProfileSetup/ProfileSetup.tsx:436-534 | a rejected form sets its message and changes nothing else; an accepted one is stored as SubmitProfile states |
| VaultSetupScreen.OnboardingProfile | src/components/VaultSetup/VaultSetup.tsx:340-351 | nothing measured, male and moderately active, a name iff the input is not blank, starting and ending with a visible character; avatar as given; saved with tmb 7.75 |
| VaultSetupScreen.ProfileToSave | src/components/VaultSetup/VaultSetup.tsx:339-351 | a profile is written iff the trimmed name is not blank or the avatar was stored, so it is never empty; its avatar, present iff stored, is the avatar file name and never image data; it is saved with tmb 7.75 |
| VaultSetupScreen.OnboardingOutcome | src/components/VaultSetup/VaultSetup.tsx:323-352 | onboarding touches only the avatar and profile of the opened vault, each holding what it should |
| VaultSetupScreen.OnboardingProfileHoldsNoImage | src/components/VaultSetup/VaultSetup.tsx:340-351 | the onboarding profile's avatar is a file name, never a data URI |
| VaultSetupScreen.OnboardingLeadsToProfileSetup | src/components/VaultSetup/VaultSetup.tsx:338-356 | after onboarding the shell shows the profile form |
| VaultSetupScreen.VaultSetupForm.constructor | src/components/VaultSetup/VaultSetup.tsx:250-253 | not loading, no error, empty name, no avatar |
| VaultSetupScreen.VaultSetupForm.HandleFileChange | src/components/VaultSetup/VaultSetup.tsx:275-292 | a non-image file is refused with an error; an image becomes the avatar |
| VaultSetupScreen.VaultSetupForm.HandleAvatarClick | src/components/VaultSetup/VaultSetup.tsx:256-273 | falls back to the file input iff the dialog is unavailable or fails; a picked image becomes the avatar |
| VaultSetupScreen.VaultSetupForm.HandleRemoveAvatar | src/components/VaultSetup/VaultSetup.tsx:294-300 | the avatar is cleared, so none will be stored |
| VaultSetupScreen.VaultSetupForm.StoreOnboarding | src/components/VaultSetup/VaultSetup.tsx:323-356 | the files become the onboarded files and the profile is reloaded |
| VaultSetupScreen.VaultSetupForm.OpenFolder | src/components/VaultSetup/VaultSetup.tsx:313-314 | the folder is opened iff initialising it succeeds; the files are then `OpenedFiles` of the old ones and the state is `Loaded` from the initialised vault, with its path open; otherwise the state is unchanged and no existing file changes |
| VaultSetupScreen.VaultSetupForm.OpenAndOnboard | src/components/VaultSetup/VaultSetup.tsx:311-357 | the vault is opened iff initialising it succeeds, and nothing else happens otherwise; once opened, the files are `OnboardedFiles` of the opened ones and the state is the loaded vault with the stored profile read back over it |
| VaultSetupScreen.VaultSetupForm.HandleSelectFolder | src/components/VaultSetup/VaultSetup.tsx:302-365 | outside Electron only an error; with no folder opened an error, the state unchanged and no existing file changed; otherwise the files once the vault is opened are `OpenedFiles` of the old ones, the avatar and profile are then stored, and the state is the loaded vault (config, profile, history, running fast) with the stored profile read back over it |
| AddEntryModalView.StoredDialogEntry | src/components/HistoryScreen/AddEntryModal.tsx:333-354 | what lands in the journal keeps the dialog's date, the parsed weight when its text is not blank and none otherwise, and its notes trimmed iff not blank; a photo under `photos/` named by add-entry's time iff an image was chosen; the id add-entry stamps |
| AddEntryModalView.AddEntryForm.constructor | src/components/HistoryScreen/AddEntryModal.tsx:318-322 | empty fields, no photo, not saving |
| AddEntryModalView.AddEntryForm.HandleSelectPhoto | src/components/HistoryScreen/AddEntryModal.tsx:327-331 | a picked image becomes the photo; otherwise nothing changes |
| AddEntryModalView.AddEntryForm.HandleSave | src/components/HistoryScreen/AddEntryModal.tsx:333-354 | nothing is sent without data, vault or history API, nor when the date is invalid (the dialog then stops saving); otherwise the built entry is added as add-entry states (`MainProcess.AddEntryEffect`), and `onSaved` runs only on success |
| AddEntryModalView.AddEntryForm.Send | src/components/HistoryScreen/AddEntryModal.tsx:335-353 | the entry goes to add-entry, `saving` ends false, and `onSaved` runs exactly when the entry was added |
| HistoryScreenView.ChartOfAppend | src/components/HistoryScreen/HistoryScreen.tsx:333-340 | the chart of a list runs against the list's order: the points of later entries come before those of earlier ones |
| HistoryScreenView.ChartDataPoints | src/components/HistoryScreen/HistoryScreen.tsx:333-340 | one point per weighed entry, in reverse order, each with that entry's date and weight; no other points |
| HistoryScreenView.FilterKeepsOrder | src/components/HistoryScreen/HistoryScreen.tsx:335 | filtering keeps a newest-first order |
| HistoryScreenView.ChartOldestFirst | src/components/HistoryScreen/HistoryScreen.tsx:333-340 | drawn from a newest-first list, the chart runs oldest first |
| HistoryScreenView.HistoryView.constructor | src/components/HistoryScreen/HistoryScreen.tsx:275-278 | no entries, loading, initial entry not added, dialog closed |
| HistoryScreenView.HistoryView.LoadEntries | src/components/HistoryScreen/HistoryScreen.tsx:280-293 | the list is replaced only by a successful get-all, newest first; loading ends |
| HistoryScreenView.HistoryView.InitialEntryEffect | src/components/HistoryScreen/HistoryScreen.tsx:299-314 | fires only when due; the journal gains the profile's weight exactly when the history file can be written, and is unchanged otherwise; the guard is reset only on failure |
| HistoryScreenView.HistoryView.HandleDelete | src/components/HistoryScreen/HistoryScreen.tsx:316-326 | the id leaves the list only on success, every other entry stays; the stored journal loses exactly that id, success follows the history file being writable, and a failure leaves it as it was |
| HistoryScreenView.HistoryView.HandleEntryAdded | src/components/HistoryScreen/HistoryScreen.tsx:328-331 | the dialog closes and the list is read again |
| FastTypeSelectorView.SplitByDuration | src/components/FastTypeSelector/FastTypeSelector.tsx:186-187 | in a list ordered by hours, the short fasts followed by the long ones give back the list |
| FastTypeSelectorView.SectionsPartition | src/components/FastTypeSelector/FastTypeSelector.tsx:186-187 | the two sections partition an ordered list, in order, each holding only its own kind |
| FastTypeSelectorView.SectionsPartitionCatalogue | src/components/FastTypeSelector/FastTypeSelector.tsx:186-187 | the catalogue's intermittent tiles then its prolonged ones are the catalogue; each type is in exactly one section |
| FastTypeSelectorView.SelectionHighlightsOneTile | src/components/FastTypeSelector/FastTypeSelector.tsx:190-201 | a catalogue choice highlights only its own tile and not the custom one; a custom choice highlights only the custom tile |
| FastTypeSelectorView.FastTypePicker.constructor | src/components/FastTypeSelector/FastTypeSelector.tsx:170 | the custom box is empty and nothing is selected |
| FastTypeSelectorView.FastTypePicker.HandleCustomSubmit | src/components/FastTypeSelector/FastTypeSelector.tsx:172-178 | hours in (0, 720] select a custom fast of that length and clear the box; anything else changes nothing |
| FastTypeSelectorView.FastTypePicker.HandleTileClick | src/components/FastTypeSelector/FastTypeSelector.tsx:180-183 | the box is cleared and exactly the clicked type is selected |
| FastTypeSelectorView.TypedHoursSelected | src/components/FastTypeSelector/FastTypeSelector.tsx:172-178 | typing a whole number selects a custom fast of exactly that many hours iff it is from 1 to 720 |

## Left out

- JSON serialisation, base64 coding and the bytes of images are abstract. A text file holds a parsed document or `Unparseable`, and a binary file holds its base64 text, so that decoding and re-encoding a payload gives it back.
- A document of the wrong kind at a path (a history where a profile is expected) counts as unreadable.
- `path.join` is plain concatenation with one separator. The model's `Dirname` cuts at the last `/` and does not strip trailing separators as `path.dirname` does; no caller passes a path ending in `/`. `path.isAbsolute` is a leading `/`. Windows paths are not modelled.
- The operating system's error messages are not modelled: a failed call carries a fixed error value.
- Exceptions outside the file model are not derived from the model. They are boolean parameters: `getAllFails` for a failed get-all, `rejected` for a rejected add-entry call in the history screen's effect, and `dialogFails` for a failed native dialog.
- The native dialogs `dialog:openDirectory` and `dialog:select-image` are left out. Their answers are parameters (`picked`).
- Window creation, window controls and the application lifecycle are left out. They are Electron plumbing.
- `Date.now()`, `new Date().getHours()`, `new Date(date)` and `Math.random()` are parameters (`now`, `currentHour`, `date`, `suffix`). One `now` stands for both clock reads in add-entry. `endFast` reads the clock twice, and the two readings are the parameters `endTime` and `idTime`.
- ISO date text is represented by the instant it denotes. The ISO formatter and parser are not modelled.
- `NaN` is represented by `None`. Floating point is `real`, so IEEE rounding and display rounding (`toFixed`, `Math.round`) are left out.
- `Promise.all` in `initializeVault`, the one-second `setInterval`, and overlapping add-entry calls are modelled as sequential calls.
- The `AppContext` reducer is not part of this model. `Types.Reduce` gives the actions the minimal meaning their names state.
- `weightConverter` is not part of this model. Weight, height and age reach the form handlers already parsed, and weights are in kilograms.
- `fastingTips` is not part of this model.
- The Dashboard, Sidebar, PanicButton, MetabolicArc and WindowControls components, the theme, and all markup are left out. They only display values computed by the modelled code.
- The text setters bound to `onChange` in every form are left out. They only copy input into state.
- The profile form's effect that copies the loaded profile into its fields (src/components/ProfileSetup/ProfileSetup.tsx:388-413) is left out. The form handlers take the field values as parameters.
- The `updateProfile` helper of useVault is not modelled. No core handler calls it.
- Strings.ParseInt reads decimal text only. `parseInt` with no radix reads a `0x` prefix as hexadecimal, which the model does not; its one caller, the custom-hours box (src/components/FastTypeSelector/FastTypeSelector.tsx:222-227), is a number input whose value is decimal.
- FastingTimer.Decompose is proved only for non-negative counts. A start time in the future gives a negative elapsed time, which the timer shows with JavaScript's signed `%` (modelled by `FastingTimer.JsRem`), but no property is stated for it.
- MainProcess.Main.WriteNode: `fs.writeFile` fails when the parent directory is missing; the model's write does not check the parent, because the file map does not record which directories contain which paths, and `fs.mkdir` with `recursive` would then have to create every missing ancestor. This affects the plain writes: the settings file (`MainProcess.Main.WriteSettings`, `MainProcess.Main.SetLastVault`), the history write of add-entry without a photo (`MainProcess.Main.AddEntry`), and delete-entry (`MainProcess.Main.DeleteEntry`). Writes through `vault:write-file` create the parent first, so their outcome is not affected.
- MainProcess.Main.SetLastVault: succeeds iff the settings file is writable in the model's sense, which ignores a missing user-data folder (see `MainProcess.Main.WriteNode`).
- MainProcess.Main.AddEntry: without a photo the history write does not check that the vault folder exists (see `MainProcess.Main.WriteNode`); with a photo, the recursive `mkdir` of `photos/` would create it anyway.
- MainProcess.Main.LoadAvatar: a text file (a JSON document or unparseable text) is held as a parsed document, not as bytes, so the model cannot base64-encode it; when the stored avatar names a text file the model answers nothing, where `fileToDataURI` (electron/main.ts:138-146) would answer a data URI of its bytes.
- MainProcess.Main.GetAll: for the same reason, an entry whose photo path names a text file gets no photo, where the program would inline that file's bytes as a data URI.
- MainProcess.Main.SettingsPath: when the user-data folder is itself a vault, the settings file and the vault share a directory. No contract rules out the clash, and no property is stated about it.
- ProfileSetupScreen.ProfileSetupForm.HandleSubmit: for each file, the ensures says it holds the new content or is unchanged. That is what the steps' outcomes allow, because a failed write leaves the file as it was; the contract does not say which write failed.
- VaultSetupScreen.VaultSetupForm.HandleSelectFolder: the avatar and profile files each hold the onboarding content or are unchanged, depending on whether their writes succeeded. The contract gives the resulting files through `OnboardedFiles`, not per write.
