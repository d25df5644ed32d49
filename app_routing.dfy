/** The application shell (src/App.tsx): which screen the state selects, and the one-off
    attempt at start-up to reopen the vault remembered from the last session. */
module AppRouting {
  import opened Wrappers
  import opened Types
  import opened Strings
  import opened Vfs
  import opened MainProcess
  import opened VaultSession

  datatype Screen = Splash | VaultSetup | ProfileSetup | HistoryScreen | Dashboard

  /** The screen `AppContent` renders. */
  function Route(booting: bool, s: AppState): (r: Screen)
    ensures r == Splash <==> booting
    ensures r == VaultSetup <==> !booting && !Present(s.vaultPath)
    ensures !booting && Present(s.vaultPath) && (s.profile.None? || s.profile.value.weight == 0.0) ==> r == ProfileSetup
    ensures r == HistoryScreen <==>
      !booting && Present(s.vaultPath) && s.profile.Some? && s.profile.value.weight != 0.0 && s.activeView == HistoryView
    ensures r == Dashboard <==>
      !booting && Present(s.vaultPath) && s.profile.Some? && s.profile.value.weight != 0.0 && s.activeView == TimerView
  {
    if booting then Splash
    else if !Present(s.vaultPath) then VaultSetup
    else if s.profile.None? || s.profile.value.weight == 0.0 then ProfileSetup
    else match s.activeView
      case HistoryView => HistoryScreen
      case ProfileView => ProfileSetup
      case TimerView => Dashboard
  }

  /** Until the profile has a weight, every view of an open vault leads to the profile
      form; once it has one, the sidebar's choice of view decides. */
  lemma ProfileGatesViews(s: AppState, view: ActiveView)
    requires Present(s.vaultPath)
    ensures (s.profile.None? || s.profile.value.weight == 0.0) ==>
      Route(false, Reduce(s, SetActiveView(view))) == ProfileSetup
    ensures s.profile.Some? && s.profile.value.weight != 0.0 ==>
      Route(false, Reduce(s, SetActiveView(view))) ==
        match view
        case HistoryView => HistoryScreen
        case ProfileView => ProfileSetup
        case TimerView => Dashboard
  {
  }

  /** Opening a vault freshly created in an empty place leads to the profile form, since
      the default profile has no weight. */
  lemma FreshVaultRoutesToProfileSetup(s: AppState, files: Files, v: string, avatar: Option<string>)
    requires v != ""
    requires v !in files
    requires forall p :: p in files ==> !StartsWith(p, v + "/")
    ensures Route(false, Loaded(s.(vaultPath := Some(v)), InitVaultFiles(files, v), v, avatar)) == ProfileSetup
  {
    FreshVaultLoadsDefaults(s.(vaultPath := Some(v)), files, v, avatar);
    LoadedFields(s.(vaultPath := Some(v)), InitVaultFiles(files, v), v, avatar);
  }

  /** Resetting the application always returns to onboarding. */
  lemma ResetShowsOnboarding(s: AppState)
    ensures Route(false, Reduce(s, ResetApp)) == VaultSetup
  {
  }

  class AppContent {
    const session: Session
    /** `booting`: the splash is shown while it holds. */
    var booting: bool
    /** Set when the component unmounts before the auto-load finished. */
    var cancelled: bool

    constructor(session: Session)
      ensures this.session == session && booting && !cancelled
    {
      this.session := session;
      booting := true;
      cancelled := false;
    }

    method Unmount()
      modifies this
      ensures cancelled && booting == old(booting)
    {
      cancelled := true;
    }

    /** `tryAutoLoad()`: reopens the remembered vault, if there is one, and ends the boot
        in every outcome unless the component was unmounted. */
    method TryAutoLoad()
      modifies this, session, session.main
      ensures cancelled == old(cancelled)
      ensures booting == (old(booting) && cancelled && session.hasSettingsApi)
      ensures !(session.hasSettingsApi && !cancelled && old(session.main.GetLastVault()).Some?) ==>
        session.state == old(session.state) && session.main.files == old(session.main.files)
      ensures session.hasSettingsApi && !cancelled && old(session.main.GetLastVault()).Some? ==>
        var v := old(session.main.GetLastVault()).value;
        if session.hasVaultApi && InitVaultSucceeds(old(session.main.files), session.main.unwritable, v) then
          && session.main.files == InitVaultFiles(old(session.main.files), v)
          && session.state == Loaded(old(session.state).(vaultPath := Some(v)), session.main.files, v, session.main.LoadAvatar(v))
        else session.state == old(session.state)
      ensures Keeps(old(session.main.files), session.main.files, {})
    {
      if !session.hasSettingsApi {
        booting := false;
        return;
      }
      var savedPath := session.main.GetLastVault();
      if savedPath.Some? && !cancelled {
        var _ := session.InitializeVault(savedPath.value);
      }
      if !cancelled {
        booting := false;
      }
    }
  }

  /** A vault remembered from the last session is reopened: once start-up ends, the shell
      no longer shows onboarding but the vault's own screens. */
  lemma RememberedVaultSkipsOnboarding(s: AppState, v: string)
    requires v != ""
    ensures Route(false, s.(vaultPath := Some(v))) != VaultSetup
    ensures Route(false, s.(vaultPath := Some(v))) != Splash
  {
  }
}
