/** The renderer's vault session (src/hooks/useVault.ts): the application state the hook
    dispatches to, and the main process it calls over IPC. `hasVaultApi`, `hasSettingsApi`
    and `hasHistoryApi` say whether the preload script exposed `window.electronAPI.vault`,
    `window.electronAPI.settings` and `window.electronAPI.history`. */
module VaultSession {
  import opened Wrappers
  import opened Types
  import opened Strings
  import opened Vfs
  import opened MainProcess
  import opened TmbCalculator

  const DataUriScheme := "data:"

  // ── What each load does to the state ─────────────────────────────────

  /** `loadProfile`'s avatar rule: a stored file name is replaced by the image it names as a
      data URI, or dropped when that image cannot be loaded; a data URI, an empty string and
      a missing avatar are kept as they are. */
  function ResolveAvatar(p: Profile, loaded: Option<string>): (r: Profile)
    ensures r == p.(avatar := r.avatar)
    ensures Present(p.avatar) && !StartsWith(p.avatar.value, DataUriScheme) ==>
      (Present(loaded) ==> r.avatar == loaded) && (!Present(loaded) ==> r.avatar.None?)
    ensures !(Present(p.avatar) && !StartsWith(p.avatar.value, DataUriScheme)) ==> r == p
  {
    if Present(p.avatar) && !StartsWith(p.avatar.value, DataUriScheme) then
      p.(avatar := if Present(loaded) then loaded else None)
    else p
  }

  /** When the loaded image is a data URI, a resolved avatar is never a file name: it is
      missing, empty or a data URI. */
  lemma ResolvedAvatarIsDataUri(p: Profile, loaded: Option<string>)
    requires loaded.Some? ==> StartsWith(loaded.value, DataUriScheme)
    ensures Present(ResolveAvatar(p, loaded).avatar) ==> StartsWith(ResolveAvatar(p, loaded).avatar.value, DataUriScheme)
  {
  }

  /** Resolving an already resolved profile changes nothing, whatever is loaded the
      second time. */
  lemma ResolveAvatarIdempotent(p: Profile, loaded: Option<string>, again: Option<string>)
    requires loaded.Some? ==> StartsWith(loaded.value, DataUriScheme)
    ensures ResolveAvatar(ResolveAvatar(p, loaded), again) == ResolveAvatar(p, loaded)
  {
    ResolvedAvatarIsDataUri(p, loaded);
  }

  /** `user:load-avatar` only ever answers with a data URI. */
  lemma LoadAvatarIsDataUri(m: Main, v: string)
    ensures m.LoadAvatar(v).Some? ==> StartsWith(m.LoadAvatar(v).value, DataUriScheme)
  {
    if m.StoredAvatar(v).Some? {
      FileToDataUriIsDataUri(m.files, ResolveInVault(v, m.StoredAvatar(v).value));
    }
  }

  /** `data.isActive && data.startTime && data.targetHours` */
  predicate Hydrates(a: ActiveFast) {
    a.isActive && NonZero(a.startTime) && NonZero(a.targetHours)
  }

  function WithConfig(s: AppState, files: Files, v: string): AppState {
    match ConfigAt(files, Join(v, ConfigFile))
    case Some(c) => Reduce(s, SetConfig(c))
    case None => s
  }

  function WithProfile(s: AppState, files: Files, v: string, avatar: Option<string>): AppState {
    match ProfileAt(files, Join(v, ProfileFile))
    case Some(p) => Reduce(s, SetProfile(ResolveAvatar(p, avatar)))
    case None => s
  }

  function WithHistory(s: AppState, files: Files, v: string): AppState {
    match HistoryAt(files, Join(v, HistoryFile))
    case Some(h) => Reduce(s, SetHistory(h))
    case None => s
  }

  function WithActiveFast(s: AppState, files: Files, v: string): AppState {
    match ActiveFastAt(files, Join(v, ActiveFastFile))
    case Some(a) =>
      if Hydrates(a) then Reduce(s, StartFast(a.startTime.value, a.targetHours.value)) else s
    case None => s
  }

  /** The state after the four loads of `initializeVault`. */
  function Loaded(s: AppState, files: Files, v: string, avatar: Option<string>): AppState {
    WithActiveFast(WithHistory(WithProfile(WithConfig(s, files, v), files, v, avatar), files, v), files, v)
  }

  /** Each load sets its own field and nothing else, so the order in which the four loads
      finish does not matter: every field is the document read, or what it was. */
  lemma LoadedFields(s: AppState, files: Files, v: string, avatar: Option<string>)
    ensures Loaded(s, files, v, avatar).vaultPath == s.vaultPath
    ensures Loaded(s, files, v, avatar).fastGoal == s.fastGoal
    ensures Loaded(s, files, v, avatar).activeView == s.activeView
    ensures Loaded(s, files, v, avatar).config ==
      if ConfigAt(files, Join(v, ConfigFile)).Some? then ConfigAt(files, Join(v, ConfigFile)) else s.config
    ensures Loaded(s, files, v, avatar).profile ==
      match ProfileAt(files, Join(v, ProfileFile))
      case Some(p) => Some(ResolveAvatar(p, avatar))
      case None => s.profile
    ensures Loaded(s, files, v, avatar).history ==
      if HistoryAt(files, Join(v, HistoryFile)).Some? then HistoryAt(files, Join(v, HistoryFile)) else s.history
    ensures Loaded(s, files, v, avatar).currentFast ==
      match ActiveFastAt(files, Join(v, ActiveFastFile))
      case Some(a) =>
        if Hydrates(a) then CurrentFast(a.startTime, true, a.targetHours) else s.currentFast
      case None => s.currentFast
  {
  }

  /** A vault freshly initialised in an empty place loads the default documents, and no
      fast is running unless one was already. */
  lemma FreshVaultLoadsDefaults(s: AppState, files: Files, v: string, avatar: Option<string>)
    requires v !in files
    requires forall p :: p in files ==> !StartsWith(p, v + "/")
    ensures Loaded(s, InitVaultFiles(files, v), v, avatar).config == Some(DefaultConfig(v))
    ensures Loaded(s, InitVaultFiles(files, v), v, avatar).profile == Some(DefaultProfile)
    ensures Loaded(s, InitVaultFiles(files, v), v, avatar).history == Some(DefaultHistory)
    ensures Loaded(s, InitVaultFiles(files, v), v, avatar).currentFast == s.currentFast
  {
    var cp, pp, hp, ap := Join(v, ConfigFile), Join(v, ProfileFile), Join(v, HistoryFile), Join(v, ActiveFastFile);
    assert cp !in files && pp !in files && hp !in files && ap !in files by {
      assert StartsWith(cp, v + "/") && StartsWith(pp, v + "/");
      assert StartsWith(hp, v + "/") && StartsWith(ap, v + "/");
    }
    InitVaultFilesContent(files, v);
    JoinDistinct(v, ActiveFastFile, ConfigFile);
    JoinDistinct(v, ActiveFastFile, ProfileFile);
    JoinDistinct(v, ActiveFastFile, HistoryFile);
    assert ap != v by { assert |ap| > |v|; }
    LoadedFields(s, InitVaultFiles(files, v), v, avatar);
  }

  /** `profile.tmb || calculateTMB(profile)`: a zero expenditure is filled in from the
      Mifflin–St Jeor formula, any other is kept. */
  function WithTmb(p: Profile): (r: Profile)
    ensures r == p.(tmb := r.tmb)
    ensures p.tmb != 0.0 ==> r.tmb == p.tmb
    ensures p.tmb == 0.0 ==> r.tmb == CalculateTmb(p)
  {
    p.(tmb := if p.tmb != 0.0 then p.tmb else CalculateTmb(p))
  }

  /** Filling in the expenditure twice is filling it in once. */
  lemma WithTmbIdempotent(p: Profile)
    ensures WithTmb(WithTmb(p)) == WithTmb(p)
  {
  }

  /** The files once `selectVaultFolder` has opened `v`: the vault initialised, then, when
      `remember` and the settings file can be written, `v` stored as the last vault. */
  function OpenedFiles(files: Files, unwritable: set<string>, settingsPath: string, v: string, remember: bool): Files {
    var ready := InitVaultFiles(files, v);
    if remember && Writable(ready, unwritable, settingsPath)
    then ready[settingsPath := Text(SettingsDoc(SettingsIn(ready, settingsPath)[LastVaultKey := v]))]
    else ready
  }

  // ── The session ──────────────────────────────────────────────────────

  class Session {
    var state: AppState
    const main: Main
    const hasVaultApi: bool
    const hasSettingsApi: bool
    const hasHistoryApi: bool

    constructor(main: Main, hasVaultApi: bool, hasSettingsApi: bool, hasHistoryApi: bool)
      ensures state == InitialState
      ensures this.main == main && this.hasVaultApi == hasVaultApi && this.hasSettingsApi == hasSettingsApi
      ensures this.hasHistoryApi == hasHistoryApi
    {
      state := InitialState;
      this.main := main;
      this.hasVaultApi := hasVaultApi;
      this.hasSettingsApi := hasSettingsApi;
      this.hasHistoryApi := hasHistoryApi;
    }

    /** `dispatch(action)` */
    method Dispatch(a: Action)
      modifies this
      ensures state == Reduce(old(state), a)
    {
      state := Reduce(state, a);
    }

    /** `loadConfig(vaultPath)` */
    method LoadConfig(v: string)
      modifies this
      ensures state == if hasVaultApi then WithConfig(old(state), main.files, v) else old(state)
    {
      if !hasVaultApi {
        return;
      }
      var r := main.ReadFile(Join(v, ConfigFile));
      if r.Some? && r.value.ConfigDoc? {
        Dispatch(SetConfig(r.value.config));
      }
    }

    /** `loadProfile(vaultPath)`: the avatar is resolved through `user:load-avatar`. */
    method LoadProfile(v: string)
      modifies this
      ensures state == if hasVaultApi then WithProfile(old(state), main.files, v, main.LoadAvatar(v)) else old(state)
    {
      if !hasVaultApi {
        return;
      }
      var r := main.ReadFile(Join(v, ProfileFile));
      if r.None? || !r.value.ProfileDoc? {
        return;
      }
      var profile := r.value.profile;
      if Present(profile.avatar) && !StartsWith(profile.avatar.value, DataUriScheme) {
        var uri := main.LoadAvatar(v);
        profile := profile.(avatar := if Present(uri) then uri else None);
      }
      Dispatch(SetProfile(profile));
    }

    /** `loadHistory(vaultPath)` */
    method LoadHistory(v: string)
      modifies this
      ensures state == if hasVaultApi then WithHistory(old(state), main.files, v) else old(state)
    {
      if !hasVaultApi {
        return;
      }
      var r := main.ReadFile(Join(v, HistoryFile));
      if r.Some? && r.value.HistoryDoc? {
        Dispatch(SetHistory(r.value.history));
      }
    }

    /** `loadActiveFast(vaultPath)`: a running fast is restored from its stored start. */
    method LoadActiveFast(v: string)
      modifies this
      ensures state == if hasVaultApi then WithActiveFast(old(state), main.files, v) else old(state)
    {
      if !hasVaultApi {
        return;
      }
      var r := main.ReadFile(Join(v, ActiveFastFile));
      if r.None? || !r.value.ActiveFastDoc? {
        return;
      }
      var data := r.value.activeFast;
      if Hydrates(data) {
        Dispatch(StartFast(data.startTime.value, data.targetHours.value));
      }
    }

    /** `saveActiveFast(data)`: written to the open vault, the outcome ignored. */
    method SaveActiveFast(data: ActiveFast)
      modifies main
      ensures main.files ==
        if hasVaultApi && Present(state.vaultPath)
        then AfterWrite(old(main.files), main.unwritable, Join(state.vaultPath.value, ActiveFastFile), ActiveFastDoc(data))
        else old(main.files)
      ensures hasVaultApi && Present(state.vaultPath)
              && WriteSucceeds(old(main.files), main.unwritable, Join(state.vaultPath.value, ActiveFastFile)) ==>
        ActiveFastAt(main.files, Join(state.vaultPath.value, ActiveFastFile)) == Some(data)
    {
      if !hasVaultApi || !Present(state.vaultPath) {
        return;
      }
      var p := Join(state.vaultPath.value, ActiveFastFile);
      var _ := main.WriteFile(p, ActiveFastDoc(data));
    }

    /** `initializeVault(vaultPath)`: creates the default documents, opens the vault and
        loads it; nothing is opened when initialisation fails. */
    method InitializeVault(v: string) returns (ok: bool)
      modifies this, main
      ensures ok <==> hasVaultApi && InitVaultSucceeds(old(main.files), main.unwritable, v)
      ensures ok ==> main.files == InitVaultFiles(old(main.files), v)
      ensures ok ==> state == Loaded(old(state).(vaultPath := Some(v)), main.files, v, main.LoadAvatar(v))
      ensures !ok ==> state == old(state)
      ensures Keeps(old(main.files), main.files, {})
    {
      if !hasVaultApi {
        return false;
      }
      var r := main.InitVault(v);
      if r.Failure? {
        return false;
      }
      Dispatch(SetVaultPath(v));
      LoadConfig(v);
      LoadProfile(v);
      LoadHistory(v);
      LoadActiveFast(v);
      ok := true;
    }

    /** `selectVaultFolder()` with the folder the dialog returned (`None` when cancelled):
        the opened folder is remembered for the next launch. */
    method SelectVaultFolder(picked: Option<string>) returns (r: Option<string>)
      modifies this, main
      ensures r.Some? <==> hasVaultApi && Present(picked) && InitVaultSucceeds(old(main.files), main.unwritable, picked.value)
      ensures r.Some? ==> r == picked && state.vaultPath == picked && IsVault(main.files, r.value)
      ensures r.Some? ==>
        var ready := InitVaultFiles(old(main.files), r.value);
        && state == Loaded(old(state).(vaultPath := r), ready, r.value, AvatarIn(ready, r.value))
        && main.files == OpenedFiles(old(main.files), main.unwritable, main.SettingsPath(), r.value, hasSettingsApi)
      ensures r.None? ==> state == old(state)
      ensures r.None? ==> Keeps(old(main.files), main.files, {})
      ensures !(hasVaultApi && Present(picked)) ==> main.files == old(main.files)
      ensures r.Some? && hasSettingsApi && Writable(old(main.files), main.unwritable, main.SettingsPath())
              && main.SettingsPath() != r.value ==>
        main.GetLastVault() == r
    {
      if !hasVaultApi || !Present(picked) {
        return None;
      }
      var v := picked.value;
      ghost var before := main.files;
      var ok := InitializeVault(v);
      if !ok {
        return None;
      }
      InitVaultFilesContent(before, v);
      InitVaultAddsNoOtherDir(before, v);
      LoadedFields(old(state).(vaultPath := Some(v)), main.files, v, main.LoadAvatar(v));
      LoadAvatarIn(main, v);
      assert IsVault(main.files, v);
      if hasSettingsApi {
        var _ := main.SetLastVault(v);
      }
      r := picked;
    }

    /** `saveConfig(config)`: the state follows the file only when it was written. */
    method SaveConfig(c: Config) returns (ok: bool)
      modifies this, main
      ensures ok <==> (hasVaultApi && Present(old(state.vaultPath))
                       && WriteSucceeds(old(main.files), main.unwritable, Join(old(state.vaultPath).value, ConfigFile)))
      ensures ok ==> state == Reduce(old(state), SetConfig(c))
      ensures ok ==> ConfigAt(main.files, Join(state.vaultPath.value, ConfigFile)) == Some(c)
      ensures !ok ==> state == old(state)
      ensures main.files ==
        if hasVaultApi && Present(state.vaultPath)
        then AfterWrite(old(main.files), main.unwritable, Join(state.vaultPath.value, ConfigFile), ConfigDoc(c))
        else old(main.files)
    {
      if !hasVaultApi || !Present(state.vaultPath) {
        return false;
      }
      var p := Join(state.vaultPath.value, ConfigFile);
      var r := main.WriteFile(p, ConfigDoc(c));
      if r.Success? {
        Dispatch(SetConfig(c));
      }
      ok := r.Success?;
    }

    /** `saveProfile(profile, vaultPath?)`: writes the profile, its expenditure filled in,
        to the given vault or else the open one; the state is left to a later load. */
    method SaveProfile(p: Profile, explicitVault: Option<string>) returns (ok: bool)
      modifies main
      ensures var vault := if Present(explicitVault) then explicitVault else state.vaultPath;
        ok <==> hasVaultApi && Present(vault) && WriteSucceeds(old(main.files), main.unwritable, Join(vault.value, ProfileFile))
      ensures var vault := if Present(explicitVault) then explicitVault else state.vaultPath;
        ok ==> ProfileAt(main.files, Join(vault.value, ProfileFile)) == Some(WithTmb(p))
      ensures var vault := if Present(explicitVault) then explicitVault else state.vaultPath;
        main.files ==
          if hasVaultApi && Present(vault)
          then AfterWrite(old(main.files), main.unwritable, Join(vault.value, ProfileFile), ProfileDoc(WithTmb(p)))
          else old(main.files)
    {
      var vault := if Present(explicitVault) then explicitVault else state.vaultPath;
      if !hasVaultApi || !Present(vault) {
        return false;
      }
      var r := main.WriteFile(Join(vault.value, ProfileFile), ProfileDoc(WithTmb(p)));
      ok := r.Success?;
    }

    /** `saveHistory(history)`: the state follows the file only when it was written. */
    method SaveHistory(h: History) returns (ok: bool)
      modifies this, main
      ensures ok <==> (hasVaultApi && Present(old(state.vaultPath))
                       && WriteSucceeds(old(main.files), main.unwritable, Join(old(state.vaultPath).value, HistoryFile)))
      ensures ok ==> state == Reduce(old(state), SetHistory(h))
      ensures ok ==> HistoryAt(main.files, Join(state.vaultPath.value, HistoryFile)) == Some(h)
      ensures !ok ==> state == old(state)
      ensures main.files ==
        if hasVaultApi && Present(state.vaultPath)
        then AfterWrite(old(main.files), main.unwritable, Join(state.vaultPath.value, HistoryFile), HistoryDoc(h))
        else old(main.files)
    {
      if !hasVaultApi || !Present(state.vaultPath) {
        return false;
      }
      var p := Join(state.vaultPath.value, HistoryFile);
      var r := main.WriteFile(p, HistoryDoc(h));
      if r.Success? {
        Dispatch(SetHistory(h));
      }
      ok := r.Success?;
    }

    /** `deleteVault()`: forgets the remembered vault, leaving its files in place, and
        returns to the initial state whether or not the setting could be written. */
    method DeleteVault()
      modifies this, main
      ensures state == InitialState
      ensures Keeps(old(main.files), main.files, {main.SettingsPath()})
      ensures main.files ==
        if hasSettingsApi && Writable(old(main.files), main.unwritable, main.SettingsPath())
        then old(main.files)[main.SettingsPath() := Text(SettingsDoc(old(main.ReadSettings())[LastVaultKey := ""]))]
        else old(main.files)
      ensures hasSettingsApi && Writable(old(main.files), main.unwritable, main.SettingsPath()) ==>
        main.GetLastVault() == None && main.ReadSettings() == old(main.ReadSettings())[LastVaultKey := ""]
      ensures !hasSettingsApi ==> main.files == old(main.files)
    {
      if hasSettingsApi {
        var _ := main.SetLastVault("");
      }
      Dispatch(ResetApp);
    }
  }

  /** A profile saved and then loaded comes back with its expenditure filled in and its
      avatar resolved. */
  lemma SavedProfileLoadsBack(s: AppState, files: Files, v: string, p: Profile, avatar: Option<string>)
    requires ProfileAt(files, Join(v, ProfileFile)) == Some(WithTmb(p))
    ensures WithProfile(s, files, v, avatar).profile == Some(ResolveAvatar(WithTmb(p), avatar))
    ensures WithProfile(s, files, v, avatar).profile.value.tmb == WithTmb(p).tmb
  {
  }
}
