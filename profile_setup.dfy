/** The profile form (src/components/ProfileSetup/ProfileSetup.tsx): checking what was
    typed, merging it into the stored profile, storing a newly chosen avatar, the weight
    unit and the profile, and recording the starting weight in an empty journal. The form's
    fields arrive already parsed, `None` standing for `NaN`: the weight in kilograms, the
    height, and the age as `parseInt` reads it (`Strings.ParseInt`). */
module ProfileSetupScreen {
  import opened Wrappers
  import opened Types
  import opened Strings
  import opened Vfs
  import opened MainProcess
  import opened ActivityMultipliers
  import opened TmbCalculator
  import opened VaultSession
  import opened AppRouting

  const NameError := "Please enter your name"
  const FieldsError := "Please fill in all fields with valid values (weight, height, age)"
  const StartingWeightNote := "Starting weight (from profile)"

  /** A parsed number the form accepts: present (not `NaN`) and positive. */
  predicate PositiveReal(x: Option<real>) {
    x.Some? && x.value > 0.0
  }

  /** Why `handleSubmit` turns a form down. */
  datatype FormError = BlankName | InvalidFields

  /** The message shown for each reason. */
  function Message(e: FormError): string {
    match e
    case BlankName => NameError
    case InvalidFields => FieldsError
  }

  /** The reason `handleSubmit` stops, if any: a blank name first, then any weight, height
      or age that is missing, `NaN`, zero or negative. */
  function Rejection(formName: string, weight: Option<real>, height: Option<real>, age: Option<int>): (r: Option<FormError>)
    ensures r == Some(BlankName) <==> Trim(formName) == ""
    ensures r == Some(InvalidFields) <==>
      (Trim(formName) != "" && !(PositiveReal(weight) && PositiveReal(height) && age.Some? && age.value > 0))
    ensures r.None? <==>
      (Trim(formName) != "" && PositiveReal(weight) && PositiveReal(height) && age.Some? && age.value > 0)
  {
    if Trim(formName) == "" then Some(BlankName)
    else if !(PositiveReal(weight) && PositiveReal(height) && age.Some? && age.value > 0) then Some(InvalidFields)
    else None
  }

  /** `{ ...existingProfile, name, weight, height, age, gender, activityLevel }` with `tmb`
      recomputed: of the stored profile only the avatar survives, and the expenditure is the
      Mifflin-St Jeor BMR of the form's measurements scaled by its activity level. Saving
      the profile keeps that expenditure, unless it came out as zero, which `saveProfile`
      recomputes to the same value. */
  function FormProfile(base: Option<Profile>, name: string, weight: real, height: real, age: int,
                       gender: Gender, level: ActivityLevel): (r: Profile)
    ensures r.avatar == if base.Some? then base.value.avatar else None
    ensures r.name == Some(name) && r.weight == weight && r.height == height && r.age == age
    ensures r.gender == gender && r.activityLevel == level
    ensures r.tmb == CalculateTmb(r)
    ensures r.tmb ==
      (10.0 * weight + 6.25 * height - 5.0 * age as real + (if gender == Male then 5.0 else -161.0)) * Multiplier(level)
    ensures WithTmb(r) == r && PersistedAvatar(r).tmb == r.tmb
  {
    var p := Profile(Some(name), if base.Some? then base.value.avatar else None, weight, height, 0.0, age, gender, level);
    p.(tmb := CalculateTmb(p))
  }

  /** The profile as written to disk: an inlined avatar is replaced by the vault's avatar
      file name, so the stored profile never holds image data. */
  function PersistedAvatar(p: Profile): (r: Profile)
    ensures r == p.(avatar := r.avatar)
    ensures r.avatar.Some? ==> !StartsWith(r.avatar.value, DataUriScheme)
    ensures !(p.avatar.Some? && StartsWith(p.avatar.value, DataUriScheme)) ==> r == p
  {
    assert AvatarFile[0] != DataUriScheme[0];
    if p.avatar.Some? && StartsWith(p.avatar.value, DataUriScheme) then p.(avatar := Some(AvatarFile)) else p
  }

  /** The configuration saved with the chosen unit: the current one, or the fixed defaults
      when none is loaded, with only `weightUnit` replaced. */
  function ConfigWithUnit(current: Option<Config>, v: string, unit: WeightUnit): (r: Config)
    ensures r.weightUnit == unit
    ensures current.Some? ==> r.(weightUnit := current.value.weightUnit) == current.value
    ensures current.None? ==> r.(weightUnit := Kg) == DefaultConfig(v)
  {
    (if current.Some? then current.value else DefaultConfig(v)).(weightUnit := unit)
  }

  /** `!state.history?.progressEntries?.length` */
  predicate NoEntries(s: AppState) {
    s.history.None? || s.history.value.progressEntries.None? || |s.history.value.progressEntries.value| == 0
  }

  /** The entry recording the weight given at registration. */
  function InitialEntry(weight: real, now: nat): NewEntry {
    NewEntry(now, Some(weight), None, Some(StartingWeightNote))
  }

  /** Whether `saveAvatar` stores the image the form holds: one was chosen, a vault is open,
      the image is a data URI and the vault can take the file. */
  predicate AvatarAdopted(changed: bool, preview: Option<string>, v: Option<string>, hasVaultApi: bool,
                          files: Files, unwritable: set<string>) {
    changed && Present(preview) && Present(v) && hasVaultApi
    && MatchImageDataUri(preview.value).Some? && CanMkdir(files, unwritable, v.value)
    && Writable(files, unwritable, Join(v.value, AvatarFile))
  }

  /** An accepted form yields a complete profile: a name, positive measurements, and the
      expenditure they determine. */
  lemma AcceptedFormIsComplete(base: Option<Profile>, formName: string, weight: Option<real>, height: Option<real>,
                               age: Option<int>, gender: Gender, level: ActivityLevel)
    requires Rejection(formName, weight, height, age).None?
    ensures var p := FormProfile(base, Trim(formName), weight.value, height.value, age.value, gender, level);
      && p.name.Some? && !IsBlank(p.name.value)
      && p.weight > 0.0 && p.height > 0.0 && p.age > 0
      && WithTmb(PersistedAvatar(p)).weight == p.weight
  {
    TrimEmptyIffBlank(formName);
  }

  /** Once the stored profile has a positive weight, loading it lets the shell leave the
      profile form for whichever view is selected. */
  lemma SubmittedProfileOpensViews(s: AppState, files: Files, v: string, avatar: Option<string>, p: Profile)
    requires Present(s.vaultPath) && p.weight > 0.0
    requires ProfileAt(files, Join(v, ProfileFile)) == Some(WithTmb(PersistedAvatar(p)))
    ensures Route(false, WithProfile(s, files, v, avatar)) ==
      match s.activeView
      case HistoryView => HistoryScreen
      case ProfileView => ProfileSetup
      case TimerView => Dashboard
  {
    SavedProfileLoadsBack(s, files, v, PersistedAvatar(p), avatar);
  }

  /** The steps of a submission (avatar; configuration and profile; journal) each keep to
      their own files and the vault directory, so each file ends as its own step left it
      and nothing else in the vault changes. */
  lemma SubmissionFootprint(f0: Files, f1: Files, f3: Files, f4: Files, v: string)
    requires v != ""
    requires var ap := Join(v, AvatarFile); Keeps(f0, f1, {v, ap}) && f1.Keys <= f0.Keys + {v, ap}
    requires var cp, pp := Join(v, ConfigFile), Join(v, ProfileFile);
      Keeps(f1, f3, {cp, pp, v}) && f3.Keys <= f1.Keys + {cp, pp, v}
    requires var hp := Join(v, HistoryFile);
      Keeps(f3, f4, {hp}) && f4.Keys <= f3.Keys + {hp, Join(v, PhotosDir)}
    ensures var cp, pp, hp, ap := Join(v, ConfigFile), Join(v, ProfileFile), Join(v, HistoryFile), Join(v, AvatarFile);
      && SameAt(f1, f4, ap) && SameAt(f0, f1, cp) && SameAt(f3, f4, cp) && SameAt(f0, f1, pp)
      && SameAt(f3, f4, pp) && SameAt(f0, f3, hp)
      && Keeps(f0, f4, {v, cp, pp, hp, ap})
  {
    var cp, pp, hp, ap := Join(v, ConfigFile), Join(v, ProfileFile), Join(v, HistoryFile), Join(v, AvatarFile);
    var photos := Join(v, PhotosDir);
    VaultPathsDistinct(v);
    KeptAt(f1, f3, {cp, pp, v}, {cp, pp, v}, ap);
    KeptAt(f3, f4, {hp}, {hp, photos}, ap);
    KeptAt(f0, f1, {v, ap}, {v, ap}, cp);
    KeptAt(f3, f4, {hp}, {hp, photos}, cp);
    KeptAt(f0, f1, {v, ap}, {v, ap}, pp);
    KeptAt(f3, f4, {hp}, {hp, photos}, pp);
    KeptAt(f0, f1, {v, ap}, {v, ap}, hp);
    KeptAt(f1, f3, {cp, pp, v}, {cp, pp, v}, hp);
    KeepsTrans(f0, f1, f3, {v, ap}, {cp, pp, v});
    KeepsTrans(f0, f3, f4, {v, ap} + {cp, pp, v}, {hp});
    assert {v, ap} + {cp, pp, v} + {hp} == {v, cp, pp, hp, ap};
  }

  /** The avatar step in vault `v`: the image stored when `adopted`, the avatar file left
      as it was otherwise, and only the vault directory and that file touched. */
  predicate AvatarStep(f0: Files, f1: Files, v: string, adopted: bool, blob: Node) {
    var ap := Join(v, AvatarFile);
    && (adopted ==> ap in f1 && f1[ap] == blob)
    && (!adopted ==> SameAt(f0, f1, ap))
    && Keeps(f0, f1, {v, ap}) && f1.Keys <= f0.Keys + {v, ap}
  }

  /** The configuration and profile step: each file written (the state taking the new
      configuration) or left as it was, nothing at all without the vault API, and only the
      two files and the vault directory touched. */
  predicate UnitAndProfileStep(f1: Files, f3: Files, s: AppState, s2: AppState, v: string,
                               hasVaultApi: bool, cfg: Config, sp: Profile) {
    var cp, pp := Join(v, ConfigFile), Join(v, ProfileFile);
    && ((ConfigAt(f3, cp) == Some(cfg) && s2 == Reduce(s, SetConfig(cfg))) || (SameAt(f1, f3, cp) && s2 == s))
    && (ProfileAt(f3, pp) == Some(WithTmb(PersistedAvatar(sp))) || SameAt(f1, f3, pp))
    && (!hasVaultApi ==> f3 == f1 && s2 == s)
    && Keeps(f1, f3, {cp, pp, v}) && f3.Keys <= f1.Keys + {cp, pp, v}
  }

  /** Writing the configuration and then the profile of vault `v` touches those two files
      and the vault directory, and the second write leaves the first file alone. */
  lemma UnitAndProfileFiles(f1: Files, u: set<string>, v: string, cfg: Config, sp: Profile)
    requires v != ""
    ensures var cp, pp := Join(v, ConfigFile), Join(v, ProfileFile);
      var f2 := AfterWrite(f1, u, cp, ConfigDoc(cfg));
      var f3 := AfterWrite(f2, u, pp, ProfileDoc(sp));
      && SameAt(f2, f3, cp) && SameAt(f1, f2, pp)
      && Keeps(f1, f3, {cp, pp, v}) && f3.Keys <= f1.Keys + {cp, pp, v}
  {
    var cp, pp := Join(v, ConfigFile), Join(v, ProfileFile);
    var f2 := AfterWrite(f1, u, cp, ConfigDoc(cfg));
    var f3 := AfterWrite(f2, u, pp, ProfileDoc(sp));
    VaultPathsDistinct(v);
    AfterWriteFootprint(f1, u, cp, ConfigDoc(cfg));
    AfterWriteFootprint(f2, u, pp, ProfileDoc(sp));
    KeptAt(f2, f3, {pp, v}, {pp, v}, cp);
    KeptAt(f1, f2, {cp, v}, {cp, v}, pp);
    KeepsTrans(f1, f2, f3, {cp, v}, {pp, v});
    assert {cp, v} + {pp, v} == {cp, pp, v};
  }

  /** Journal `j` with `entry` added, as `add-entry` writes it. */
  function WithEntry(j: History, entry: ProgressEntry): (h: History)
    ensures h.progressEntries.Some? && h.fasts == j.fasts
    ensures multiset(h.progressEntries.value) == multiset(j.progressEntries.GetOr([])) + multiset{entry}
  {
    History(j.fasts, Some(AddToJournal(j.progressEntries.GetOr([]), entry)))
  }

  /** The journal step: when `recorded`, the journal becomes `added` or is left as it was,
      then is reloaded; otherwise nothing. */
  predicate JournalStep(f3: Files, f4: Files, s2: AppState, s4: AppState, v: string,
                        hasVaultApi: bool, recorded: bool, added: History) {
    var hp := Join(v, HistoryFile);
    if recorded then
      && (HistoryAt(f4, hp) == Some(added) || SameAt(f3, f4, hp))
      && Keeps(f3, f4, {hp}) && f4.Keys <= f3.Keys + {hp, Join(v, PhotosDir)}
      && s4 == (if hasVaultApi then WithHistory(s2, f4, v) else s2)
    else f4 == f3 && s4 == s2
  }

  /** The configuration step changes only the state's configuration, and the journal
      step only its journal. */
  lemma StepStates(f1: Files, f3: Files, f4: Files, s: AppState, s2: AppState, s4: AppState, v: string,
                   hasVaultApi: bool, recorded: bool, cfg: Config, sp: Profile, added: History)
    requires UnitAndProfileStep(f1, f3, s, s2, v, hasVaultApi, cfg, sp)
    requires JournalStep(f3, f4, s2, s4, v, hasVaultApi, recorded, added)
    ensures s2 == s.(config := s2.config)
    ensures s4 == s2.(history := s4.history)
  {
  }

  /** After a submission the avatar file holds the stored image, or is as it was. */
  predicate AvatarEnd(files: Files, after: Files, v: string, adopted: bool, blob: Node) {
    var ap := Join(v, AvatarFile);
    (adopted ==> ap in after && after[ap] == blob) && (!adopted ==> SameAt(files, after, ap))
  }

  /** After a submission the configuration file holds `cfg` and the state shows it, or both
      are as they were. */
  predicate ConfigEnd(files: Files, after: Files, s: AppState, t: AppState, v: string, cfg: Config) {
    var cp := Join(v, ConfigFile);
    (ConfigAt(after, cp) == Some(cfg) && t.config == Some(cfg)) || (SameAt(files, after, cp) && t.config == s.config)
  }

  /** After a submission the profile file holds `sp` with its avatar as a file name and its
      expenditure filled in, or is as it was; the state shows the profile read back. */
  predicate ProfileEnd(files: Files, after: Files, s: AppState, t: AppState, v: string,
                       hasVaultApi: bool, sp: Profile, avatar: Option<string>) {
    var cp, pp := Join(v, ConfigFile), Join(v, ProfileFile);
    && (ProfileAt(after, pp) == Some(WithTmb(PersistedAvatar(sp))) || SameAt(files, after, pp))
    && (!hasVaultApi ==> SameAt(files, after, pp) && SameAt(files, after, cp) && t.profile == s.profile)
    && (hasVaultApi ==> t.profile == WithProfile(s, after, v, avatar).profile)
  }

  /** After a submission the journal is `added` when `recorded` (or is as it was), and is
      untouched otherwise; the state shows the journal read back. */
  predicate JournalEnd(files: Files, after: Files, s: AppState, t: AppState, v: string,
                       hasVaultApi: bool, recorded: bool, added: History) {
    var hp := Join(v, HistoryFile);
    && (recorded ==> HistoryAt(after, hp) == Some(added) || SameAt(files, after, hp))
    && (!recorded ==> SameAt(files, after, hp))
    && t.history == (if recorded && hasVaultApi then WithHistory(s, after, v).history else s.history)
  }

  /** What an accepted submission leaves in the open vault `v` and in the state: the avatar,
      configuration, profile and journal as above, and no other file of the vault changed. */
  predicate SubmittedToVault(files: Files, after: Files, s: AppState, t: AppState, v: string,
                             hasVaultApi: bool, recorded: bool, adopted: bool, blob: Node,
                             sp: Profile, cfg: Config, added: History, avatar: Option<string>)
  {
    && AvatarEnd(files, after, v, adopted, blob)
    && ConfigEnd(files, after, s, t, v, cfg)
    && ProfileEnd(files, after, s, t, v, hasVaultApi, sp, avatar)
    && JournalEnd(files, after, s, t, v, hasVaultApi, recorded, added)
    && Keeps(files, after, {v, Join(v, ConfigFile), Join(v, ProfileFile), Join(v, HistoryFile), Join(v, AvatarFile)})
  }

  lemma AvatarOutcome(f0: Files, f1: Files, f3: Files, f4: Files, s: AppState, s2: AppState, s4: AppState,
                      v: string, hasVaultApi: bool, recorded: bool, adopted: bool, blob: Node, sp: Profile,
                      cfg: Config, added: History)
    requires v != ""
    requires AvatarStep(f0, f1, v, adopted, blob)
    requires UnitAndProfileStep(f1, f3, s, s2, v, hasVaultApi, cfg, sp)
    requires JournalStep(f3, f4, s2, s4, v, hasVaultApi, recorded, added)
    ensures AvatarEnd(f0, f4, v, adopted, blob)
    ensures Keeps(f0, f4, {v, Join(v, ConfigFile), Join(v, ProfileFile), Join(v, HistoryFile), Join(v, AvatarFile)})
  {
    SubmissionFootprint(f0, f1, f3, f4, v);
  }

  lemma ConfigOutcome(f0: Files, f1: Files, f3: Files, f4: Files, s: AppState, s2: AppState, s4: AppState,
                      t: AppState, v: string, hasVaultApi: bool, recorded: bool, adopted: bool, blob: Node,
                      sp: Profile, cfg: Config, added: History, avatar: Option<string>)
    requires v != ""
    requires AvatarStep(f0, f1, v, adopted, blob)
    requires UnitAndProfileStep(f1, f3, s, s2, v, hasVaultApi, cfg, sp)
    requires JournalStep(f3, f4, s2, s4, v, hasVaultApi, recorded, added)
    requires t == if hasVaultApi then WithProfile(s4, f4, v, avatar) else s4
    ensures ConfigEnd(f0, f4, s, t, v, cfg)
  {
    var cp := Join(v, ConfigFile);
    SubmissionFootprint(f0, f1, f3, f4, v);
    StepStates(f1, f3, f4, s, s2, s4, v, hasVaultApi, recorded, cfg, sp, added);
    assert t.config == s2.config;
    if ConfigAt(f3, cp) == Some(cfg) && s2 == Reduce(s, SetConfig(cfg)) {
      assert DocAt(f4, cp) == DocAt(f3, cp);
    } else {
      assert SameAt(f0, f4, cp);
    }
  }

  lemma ProfileOutcome(f0: Files, f1: Files, f3: Files, f4: Files, s: AppState, s2: AppState, s4: AppState,
                       t: AppState, v: string, hasVaultApi: bool, recorded: bool, adopted: bool, blob: Node,
                       sp: Profile, cfg: Config, added: History, avatar: Option<string>)
    requires v != ""
    requires AvatarStep(f0, f1, v, adopted, blob)
    requires UnitAndProfileStep(f1, f3, s, s2, v, hasVaultApi, cfg, sp)
    requires JournalStep(f3, f4, s2, s4, v, hasVaultApi, recorded, added)
    requires t == if hasVaultApi then WithProfile(s4, f4, v, avatar) else s4
    ensures ProfileEnd(f0, f4, s, t, v, hasVaultApi, sp, avatar)
  {
    var pp := Join(v, ProfileFile);
    SubmissionFootprint(f0, f1, f3, f4, v);
    WrittenBetweenUnchanged(f0, f1, f3, f4, pp, ProfileDoc(WithTmb(PersistedAvatar(sp))));
    StepStates(f1, f3, f4, s, s2, s4, v, hasVaultApi, recorded, cfg, sp, added);
    if hasVaultApi {
      assert t.profile == WithProfile(s, f4, v, avatar).profile;
    } else {
      assert f3 == f1;
    }
  }

  /** A file written (or left alone) in the middle one of three steps, the outer two
      leaving it alone, ends written (or as it began). */
  lemma WrittenBetweenUnchanged(f0: Files, f1: Files, f3: Files, f4: Files, p: string, d: Document)
    requires SameAt(f0, f1, p) && SameAt(f3, f4, p)
    requires DocAt(f3, p) == Some(d) || SameAt(f1, f3, p)
    ensures DocAt(f4, p) == Some(d) || SameAt(f0, f4, p)
  {
  }

  /** The journal step, the earlier steps having left the journal file and the journal
      shown alone, ends as `JournalEnd` says. */
  lemma JournalOutcome(f0: Files, f3: Files, f4: Files, s: AppState, s2: AppState, s4: AppState,
                       t: AppState, v: string, hasVaultApi: bool, recorded: bool, added: History,
                       avatar: Option<string>)
    requires SameAt(f0, f3, Join(v, HistoryFile)) && s2.history == s.history
    requires JournalStep(f3, f4, s2, s4, v, hasVaultApi, recorded, added)
    requires t == if hasVaultApi then WithProfile(s4, f4, v, avatar) else s4
    ensures JournalEnd(f0, f4, s, t, v, hasVaultApi, recorded, added)
    ensures Journal(f3, Join(v, HistoryFile)) == Journal(f0, Join(v, HistoryFile))
  {
    var hp := Join(v, HistoryFile);
    assert HistoryAt(f3, hp) == HistoryAt(f0, hp) by {
      assert DocAt(f3, hp) == DocAt(f0, hp);
    }
    if recorded {
      WrittenBetweenUnchanged(f0, f3, f4, f4, hp, HistoryDoc(added));
    }
    LoadsKeepHistory(s4, f4, v, avatar);
    if recorded && hasVaultApi {
      assert WithHistory(s2, f4, v).history == WithHistory(s, f4, v).history;
    }
  }

  /** Reloading the profile leaves the journal shown as it was. */
  lemma LoadsKeepHistory(s: AppState, files: Files, v: string, avatar: Option<string>)
    ensures WithProfile(s, files, v, avatar).history == s.history
  {
  }

  /** The four steps of a submission, each as its own operation promises, add up to
      `SubmittedToVault`, and leave the vault, view, goal and running fast as they were. */
  lemma SubmissionOutcome(f0: Files, f1: Files, f3: Files, f4: Files, s: AppState, s2: AppState, s4: AppState,
                          t: AppState, v: string, hasVaultApi: bool, recorded: bool, adopted: bool, blob: Node,
                          sp: Profile, cfg: Config, added: History, avatar: Option<string>)
    requires v != ""
    requires AvatarStep(f0, f1, v, adopted, blob)
    requires UnitAndProfileStep(f1, f3, s, s2, v, hasVaultApi, cfg, sp)
    requires JournalStep(f3, f4, s2, s4, v, hasVaultApi, recorded, added)
    requires t == if hasVaultApi then WithProfile(s4, f4, v, avatar) else s4
    ensures SubmittedToVault(f0, f4, s, t, v, hasVaultApi, recorded, adopted, blob, sp, cfg, added, avatar)
    ensures Journal(f3, Join(v, HistoryFile)) == Journal(f0, Join(v, HistoryFile))
    ensures t.vaultPath == s.vaultPath && t.activeView == s.activeView
    ensures t.fastGoal == s.fastGoal && t.currentFast == s.currentFast
  {
    AvatarOutcome(f0, f1, f3, f4, s, s2, s4, v, hasVaultApi, recorded, adopted, blob, sp, cfg, added);
    ConfigOutcome(f0, f1, f3, f4, s, s2, s4, t, v, hasVaultApi, recorded, adopted, blob, sp, cfg, added, avatar);
    ProfileOutcome(f0, f1, f3, f4, s, s2, s4, t, v, hasVaultApi, recorded, adopted, blob, sp, cfg, added, avatar);
    SubmissionFootprint(f0, f1, f3, f4, v);
    StepStates(f1, f3, f4, s, s2, s4, v, hasVaultApi, recorded, cfg, sp, added);
    JournalOutcome(f0, f3, f4, s, s2, s4, t, v, hasVaultApi, recorded, added, avatar);
  }

  class ProfileSetupForm {
    const session: Session
    var avatarPreview: Option<string>
    var avatarChanged: bool
    var error: Option<string>
    var loading: bool
    var showDeleteConfirm: bool

    constructor(session: Session, avatarPreview: Option<string>)
      ensures this.session == session && this.avatarPreview == avatarPreview
      ensures !avatarChanged && error.None? && !loading && !showDeleteConfirm
    {
      this.session := session;
      this.avatarPreview := avatarPreview;
      avatarChanged := false;
      error := None;
      loading := false;
      showDeleteConfirm := false;
    }

    /** `handleAvatarClick`: the image picked in the dialog becomes the preview and marks
        the avatar as changed; cancelling the dialog changes nothing. */
    method HandleAvatarClick(picked: Option<string>)
      modifies this
      ensures session.hasVaultApi && Present(picked) ==> avatarPreview == picked && avatarChanged
      ensures !(session.hasVaultApi && Present(picked)) ==>
        avatarPreview == old(avatarPreview) && avatarChanged == old(avatarChanged)
      ensures error == old(error) && loading == old(loading) && showDeleteConfirm == old(showDeleteConfirm)
    {
      if !session.hasVaultApi {
        return;
      }
      if Present(picked) {
        avatarPreview := picked;
        avatarChanged := true;
      }
    }

    /** `handleDeleteVault`: closes the confirmation and forgets the vault. */
    method HandleDeleteVault()
      modifies this, session, session.main
      ensures !showDeleteConfirm
      ensures session.state == InitialState
      ensures Keeps(old(session.main.files), session.main.files, {session.main.SettingsPath()})
      ensures session.hasSettingsApi && Writable(old(session.main.files), session.main.unwritable, session.main.SettingsPath()) ==>
        session.main.GetLastVault().None?
      ensures avatarPreview == old(avatarPreview) && avatarChanged == old(avatarChanged)
    {
      showDeleteConfirm := false;
      session.DeleteVault();
    }

    /** The avatar step of `handleSubmit`: a newly chosen image is stored in the open vault,
        and the profile takes it only when it was stored. */
    method SaveChosenAvatar(v: Option<string>, profile: Profile) returns (p: Profile)
      modifies session.main
      ensures var adopted := AvatarAdopted(avatarChanged, avatarPreview, v, session.hasVaultApi,
                                           old(session.main.files), session.main.unwritable);
        && p == (if adopted then profile.(avatar := avatarPreview) else profile)
        && (!Present(v) ==> session.main.files == old(session.main.files))
        && (Present(v) ==>
              AvatarStep(old(session.main.files), session.main.files, v.value, adopted,
                         if adopted then Blob(MatchImageDataUri(avatarPreview.value).value.1) else Dir))
    {
      p := profile;
      if avatarChanged && Present(avatarPreview) && Present(v) && session.hasVaultApi {
        var saved := session.main.SaveAvatar(v.value, avatarPreview.value);
        VaultPathsDistinct(v.value);
        if saved.AvatarSaved? && saved.avatarPath != "" {
          p := p.(avatar := avatarPreview);
        }
      }
    }

    /** The configuration and profile steps of `handleSubmit`: `saveConfig` with the chosen
        unit, then `saveProfile` with the avatar as a file name; each file is written or
        left as it was. */
    method SaveUnitAndProfile(cfg: Config, profile: Profile)
      modifies session, session.main
      ensures !(session.hasVaultApi && Present(old(session.state.vaultPath))) ==>
        session.main.files == old(session.main.files) && session.state == old(session.state)
      ensures Present(old(session.state.vaultPath)) ==>
        UnitAndProfileStep(old(session.main.files), session.main.files, old(session.state), session.state,
                           old(session.state.vaultPath).value, session.hasVaultApi, cfg, profile)
    {
      ghost var f1, u, s1 := session.main.files, session.main.unwritable, session.state;
      var _ := session.SaveConfig(cfg);
      ghost var f2 := session.main.files;
      assert session.state.vaultPath == s1.vaultPath;
      var _ := session.SaveProfile(PersistedAvatar(profile), None);
      if session.hasVaultApi && Present(s1.vaultPath) {
        var v := s1.vaultPath.value;
        assert f2 == AfterWrite(f1, u, Join(v, ConfigFile), ConfigDoc(cfg));
        assert session.main.files == AfterWrite(f2, u, Join(v, ProfileFile), ProfileDoc(WithTmb(PersistedAvatar(profile))));
        UnitAndProfileFiles(f1, u, v, cfg, WithTmb(PersistedAvatar(profile)));
      }
    }

    /** The journal step of `handleSubmit`: when the journal loaded for state `s` is empty
        and a vault is open, records the registration weight and reloads the journal. The
        entry lands exactly when the history file can be written. */
    method RecordStartingWeight(s: AppState, weight: real, now: nat, suffix: string)
      modifies session, session.main
      ensures !Present(s.vaultPath) ==> session.main.files == old(session.main.files) && session.state == old(session.state)
      ensures Present(s.vaultPath) ==>
        JournalStep(old(session.main.files), session.main.files, old(session.state), session.state, s.vaultPath.value,
                    session.hasVaultApi, NoEntries(s) && session.hasHistoryApi,
                    WithEntry(Journal(old(session.main.files), Join(s.vaultPath.value, HistoryFile)),
                              StoredEntry(InitialEntry(weight, now), now, suffix)))
      ensures Present(s.vaultPath) && NoEntries(s) && session.hasHistoryApi ==>
        var hp := Join(s.vaultPath.value, HistoryFile);
        && (Writable(old(session.main.files), session.main.unwritable, hp) ==>
              HistoryAt(session.main.files, hp)
              == Some(WithEntry(Journal(old(session.main.files), hp), StoredEntry(InitialEntry(weight, now), now, suffix))))
        && (!Writable(old(session.main.files), session.main.unwritable, hp) ==>
              SameAt(old(session.main.files), session.main.files, hp))
    {
      if NoEntries(s) && Present(s.vaultPath) && session.hasHistoryApi {
        var _ := session.main.AddEntry(s.vaultPath.value, InitialEntry(weight, now), now, suffix);
        session.LoadHistory(s.vaultPath.value);
      }
    }

    /** The last step of `handleSubmit`: reload the profile from the open vault, or show
        the submitted one when there is none. */
    method ShowSubmitted(v: Option<string>, profile: Profile)
      modifies session
      ensures session.state ==
        if !Present(v) then Reduce(old(session.state), SetProfile(profile))
        else if session.hasVaultApi then WithProfile(old(session.state), session.main.files, v.value, session.main.LoadAvatar(v.value))
        else old(session.state)
    {
      if Present(v) {
        session.LoadProfile(v.value);
      } else {
        session.Dispatch(SetProfile(profile));
      }
    }

    /** The storing part of `handleSubmit` for the merged profile `fp`, read against the
        state `s` of the render the handler belongs to. In an open vault: the chosen avatar,
        the unit, the profile (its avatar as a file name), the starting weight in an empty
        journal, then the profile reloaded; with no vault open, only the profile shown. */
    method SubmitProfile(fp: Profile, unit: WeightUnit, weight: real, now: nat, suffix: string)
      modifies session, session.main
      ensures var s, files := old(session.state), old(session.main.files);
        !Present(s.vaultPath) ==> session.main.files == files && session.state == Reduce(s, SetProfile(fp))
      ensures var s, files := old(session.state), old(session.main.files);
        Present(s.vaultPath) ==>
          var v := s.vaultPath.value;
          var adopted := AvatarAdopted(avatarChanged, avatarPreview, s.vaultPath, session.hasVaultApi,
                                       files, session.main.unwritable);
          SubmittedToVault(files, session.main.files, s, session.state, v, session.hasVaultApi,
                           NoEntries(s) && session.hasHistoryApi, adopted,
                           if adopted then Blob(MatchImageDataUri(avatarPreview.value).value.1) else Dir,
                           if adopted then fp.(avatar := avatarPreview) else fp,
                           ConfigWithUnit(s.config, v, unit),
                           WithEntry(Journal(files, Join(v, HistoryFile)), StoredEntry(InitialEntry(weight, now), now, suffix)),
                           session.main.LoadAvatar(v))
      ensures var s := old(session.state);
        && session.state.vaultPath == s.vaultPath && session.state.activeView == s.activeView
        && session.state.fastGoal == s.fastGoal && session.state.currentFast == s.currentFast
    {
      var s := session.state;
      ghost var f0 := session.main.files;
      ghost var adopted := AvatarAdopted(avatarChanged, avatarPreview, s.vaultPath, session.hasVaultApi, f0, session.main.unwritable);
      var profile := SaveChosenAvatar(s.vaultPath, fp);
      ghost var f1 := session.main.files;
      var cfg := ConfigWithUnit(s.config, s.vaultPath.GetOr(""), unit);
      SaveUnitAndProfile(cfg, profile);
      ghost var f3, s2 := session.main.files, session.state;
      RecordStartingWeight(s, weight, now, suffix);
      ghost var f4, s4 := session.main.files, session.state;
      ShowSubmitted(s.vaultPath, profile);
      if Present(s.vaultPath) {
        var v := s.vaultPath.value;
        SubmissionOutcome(f0, f1, f3, f4, s, s2, s4, session.state, v, session.hasVaultApi,
                          NoEntries(s) && session.hasHistoryApi, adopted,
                          if adopted then Blob(MatchImageDataUri(avatarPreview.value).value.1) else Dir,
                          profile, cfg, WithEntry(Journal(f3, Join(v, HistoryFile)), StoredEntry(InitialEntry(weight, now), now, suffix)),
                          session.main.LoadAvatar(v));
      }
    }

    /** `handleSubmit`. A rejected form changes nothing but the message. An accepted one is
        merged into the loaded profile and stored as `SubmitProfile` says. */
    method HandleSubmit(formName: string, weight: Option<real>, height: Option<real>, age: Option<int>,
                        gender: Gender, level: ActivityLevel, unit: WeightUnit, now: nat, suffix: string)
      modifies this, session, session.main
      ensures !loading && avatarPreview == old(avatarPreview) && showDeleteConfirm == old(showDeleteConfirm)
      ensures var rejection := Rejection(formName, weight, height, age);
        rejection.Some? ==>
          && error == Some(Message(rejection.value)) && avatarChanged == old(avatarChanged)
          && session.state == old(session.state) && session.main.files == old(session.main.files)
      ensures Rejection(formName, weight, height, age).None? ==> error.None? && !avatarChanged
      ensures var s, files := old(session.state), old(session.main.files);
        var fp := FormProfile(s.profile, Trim(formName), weight.GetOr(0.0), height.GetOr(0.0), age.GetOr(0), gender, level);
        Rejection(formName, weight, height, age).None? && !Present(s.vaultPath) ==>
          session.main.files == files && session.state == Reduce(s, SetProfile(fp))
      ensures var s, files := old(session.state), old(session.main.files);
        Rejection(formName, weight, height, age).None? && Present(s.vaultPath) ==>
          var v := s.vaultPath.value;
          var adopted := AvatarAdopted(old(avatarChanged), old(avatarPreview), s.vaultPath, session.hasVaultApi,
                                       files, session.main.unwritable);
          var fp := FormProfile(s.profile, Trim(formName), weight.value, height.value, age.value, gender, level);
          SubmittedToVault(files, session.main.files, s, session.state, v, session.hasVaultApi,
                           NoEntries(s) && session.hasHistoryApi, adopted,
                           if adopted then Blob(MatchImageDataUri(old(avatarPreview).value).value.1) else Dir,
                           if adopted then fp.(avatar := old(avatarPreview)) else fp,
                           ConfigWithUnit(s.config, v, unit),
                           WithEntry(Journal(files, Join(v, HistoryFile)), StoredEntry(InitialEntry(weight.value, now), now, suffix)),
                           session.main.LoadAvatar(v))
      ensures var s := old(session.state);
        && session.state.vaultPath == s.vaultPath && session.state.activeView == s.activeView
        && session.state.fastGoal == s.fastGoal && session.state.currentFast == s.currentFast
    {
      loading := true;
      error := None;
      var rejection := Rejection(formName, weight, height, age);
      if rejection.Some? {
        error := Some(Message(rejection.value));
        loading := false;
        return;
      }
      // The handler reads the state of the render it was created in throughout.
      var profile := FormProfile(session.state.profile, Trim(formName), weight.value, height.value, age.value, gender, level);
      SubmitProfile(profile, unit, weight.value, now, suffix);
      avatarChanged := false;
      loading := false;
    }
  }
}
