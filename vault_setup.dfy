/** The onboarding screen (src/components/VaultSetup/VaultSetup.tsx): choosing the vault
    folder, storing the avatar picked beforehand and a first profile holding the name, and
    refusing a picked file that is not an image. */
module VaultSetupScreen {
  import opened Wrappers
  import opened Types
  import opened Strings
  import opened Vfs
  import opened MainProcess
  import opened TmbCalculator
  import opened VaultSession
  import opened AppRouting

  const NotElectronError := "Not running inside Electron. Please launch via: npm run electron:dev"
  const NoFolderError := "No folder selected. Please try again."
  const NotImageError := "Please select an image file"
  const ReadError := "Error reading image file"
  const ImageTypePrefix := "image/"

  /** The first profile: nothing measured yet, male and moderately active by default, the
      name only when it is not blank (stored trimmed, so it starts and ends with a visible
      character), and the avatar's file name only when the avatar was stored. Saving it
      fills in the expenditure of an unmeasured profile, 5 kcal × 1.55. */
  function OnboardingProfile(name: string, avatarPath: Option<string>): (p: Profile)
    ensures p.weight == 0.0 && p.height == 0.0 && p.tmb == 0.0 && p.age == 0
    ensures p.gender == Male && p.activityLevel == Moderate
    ensures p.name.Some? <==> Trim(name) != ""
    ensures p.name.Some? ==> p.name.value == Trim(name)
    ensures p.avatar == avatarPath
    ensures p.name.Some? ==> !IsSpace(p.name.value[0]) && !IsSpace(p.name.value[|p.name.value| - 1])
    ensures WithTmb(p) == p.(tmb := 7.75)
  {
    TrimEmptyIffBlank(name);
    TmbOfEmptyProfile(Profile(None, avatarPath, 0.0, 0.0, 0.0, 0, Male, Moderate));
    Profile(if Trim(name) != "" then Some(Trim(name)) else None, avatarPath, 0.0, 0.0, 0.0, 0, Male, Moderate)
  }

  /** Whether `save-avatar` stores the image chosen on this screen in vault `v`. */
  predicate AvatarStored(avatar: Option<string>, hasVaultApi: bool, files: Files, unwritable: set<string>, v: string) {
    Present(avatar) && hasVaultApi && MatchImageDataUri(avatar.value).Some?
    && CanMkdir(files, unwritable, v) && Writable(files, unwritable, Join(v, AvatarFile))
  }

  /** The profile to write, if any: only when the trimmed name is not empty or the avatar
      was stored, so a written profile is never empty. Its avatar is the avatar file's
      name, never image data, and it is saved with an expenditure of 7.75. */
  function ProfileToSave(name: string, stored: bool): (r: Option<Profile>)
    ensures r.Some? <==> Trim(name) != "" || stored
    ensures r.Some? ==> r.value == OnboardingProfile(name, if stored then Some(AvatarFile) else None)
    ensures r.Some? ==> r.value.name.Some? || r.value.avatar.Some?
    ensures r.Some? ==> (r.value.avatar.Some? <==> stored)
    ensures r.Some? && r.value.avatar.Some? ==>
      r.value.avatar.value == AvatarFile && !StartsWith(r.value.avatar.value, DataUriScheme)
    ensures r.Some? ==> WithTmb(r.value).tmb == 7.75
  {
    assert AvatarFile[0] != DataUriScheme[0];
    if Trim(name) != "" || stored then Some(OnboardingProfile(name, if stored then Some(AvatarFile) else None))
    else None
  }

  /** The files after the avatar step of `handleSelectFolder` in vault `v`. */
  function WithAvatar(files: Files, unwritable: set<string>, v: string, avatar: Option<string>, hasVaultApi: bool): Files {
    if AvatarStored(avatar, hasVaultApi, files, unwritable, v)
    then WithDir(files, v)[Join(v, AvatarFile) := Blob(MatchImageDataUri(avatar.value).value.1)]
    else files
  }

  /** In an existing vault the avatar step writes the avatar file alone. */
  lemma WithAvatarFootprint(files: Files, unwritable: set<string>, v: string, avatar: Option<string>, hasVaultApi: bool)
    requires IsVault(files, v)
    ensures var g, ap := WithAvatar(files, unwritable, v, avatar, hasVaultApi), Join(v, AvatarFile);
      && Keeps(files, g, {ap}) && g.Keys <= files.Keys + {ap} && IsVault(g, v)
      && (AvatarStored(avatar, hasVaultApi, files, unwritable, v) ==> ap in g && g[ap] == Blob(MatchImageDataUri(avatar.value).value.1))
      && (!AvatarStored(avatar, hasVaultApi, files, unwritable, v) ==> g == files)
  {
  }

  /** The files after the avatar and profile steps of `handleSelectFolder` in the freshly
      opened vault `v`. */
  function OnboardedFiles(files: Files, unwritable: set<string>, v: string, name: string, avatar: Option<string>,
                          hasVaultApi: bool): Files
  {
    var withAvatar := WithAvatar(files, unwritable, v, avatar, hasVaultApi);
    match ProfileToSave(name, AvatarStored(avatar, hasVaultApi, files, unwritable, v))
    case Some(p) =>
      if hasVaultApi then AfterWrite(withAvatar, unwritable, Join(v, ProfileFile), ProfileDoc(WithTmb(p))) else withAvatar
    case None => withAvatar
  }

  /** Onboarding touches only the avatar and the profile in the opened vault: the avatar
      file holds the decoded image exactly when it was stored, the profile file holds the
      first profile (its expenditure filled in, 7.75 kcal) when one is written and can be,
      and every other path is as it was. */
  lemma OnboardingOutcome(files: Files, unwritable: set<string>, v: string, name: string, avatar: Option<string>,
                          hasVaultApi: bool)
    requires v != "" && IsVault(files, v)
    ensures var after := OnboardedFiles(files, unwritable, v, name, avatar, hasVaultApi);
      var stored := AvatarStored(avatar, hasVaultApi, files, unwritable, v);
      var ap, pp := Join(v, AvatarFile), Join(v, ProfileFile);
      && Keeps(files, after, {ap, pp}) && after.Keys <= files.Keys + {ap, pp}
      && (stored ==> ap in after && after[ap] == Blob(MatchImageDataUri(avatar.value).value.1))
      && (!stored ==> SameAt(files, after, ap))
      && (ProfileToSave(name, stored).None? || !hasVaultApi ==> SameAt(files, after, pp))
      && (ProfileToSave(name, stored).Some? && hasVaultApi ==>
            if pp !in unwritable && !(pp in files && files[pp].Dir?)
            then ProfileAt(after, pp) == Some(ProfileToSave(name, stored).value.(tmb := 7.75))
            else SameAt(files, after, pp))
  {
    var ap, pp := Join(v, AvatarFile), Join(v, ProfileFile);
    var stored := AvatarStored(avatar, hasVaultApi, files, unwritable, v);
    VaultPathsDistinct(v);
    WithAvatarFootprint(files, unwritable, v, avatar, hasVaultApi);
    var g := WithAvatar(files, unwritable, v, avatar, hasVaultApi);
    var save := ProfileToSave(name, stored);
    if save.Some? && hasVaultApi {
      var p := save.value;
      var after := AfterWrite(g, unwritable, pp, ProfileDoc(WithTmb(p)));
      TmbOfEmptyProfile(p);
      AfterWriteFootprint(g, unwritable, pp, ProfileDoc(WithTmb(p)));
      assert WithDir(g, v) == g;
      assert after == (if WriteSucceeds(g, unwritable, pp) then g[pp := Text(ProfileDoc(WithTmb(p)))] else g);
      KeepsTrans(files, g, after, {ap}, {pp});
      assert {ap} + {pp} == {ap, pp};
      KeptAt(g, after, {pp}, {pp}, ap);
      KeptAt(files, g, {ap}, {ap}, pp);
    }
  }

  /** The profile written at onboarding never holds image data: its avatar, when it has
      one, is the vault's avatar file name. */
  lemma OnboardingProfileHoldsNoImage(name: string, stored: bool)
    requires ProfileToSave(name, stored).Some?
    ensures var p := ProfileToSave(name, stored).value;
      p.avatar.Some? ==> p.avatar.value == AvatarFile && !StartsWith(p.avatar.value, DataUriScheme)
  {
    assert AvatarFile[0] != DataUriScheme[0];
  }

  /** Once the first profile is written, the opened vault leads to the profile form: the
      profile read back has no weight. */
  lemma OnboardingLeadsToProfileSetup(s: AppState, files: Files, unwritable: set<string>, v: string, name: string,
                                      avatar: Option<string>, hasVaultApi: bool, loaded: Option<string>)
    requires v != "" && IsVault(files, v) && s.vaultPath == Some(v)
    requires hasVaultApi && ProfileToSave(name, AvatarStored(avatar, hasVaultApi, files, unwritable, v)).Some?
    requires var pp := Join(v, ProfileFile); pp !in unwritable && !(pp in files && files[pp].Dir?)
    ensures Route(false, WithProfile(s, OnboardedFiles(files, unwritable, v, name, avatar, hasVaultApi), v, loaded)) == ProfileSetup
  {
    OnboardingOutcome(files, unwritable, v, name, avatar, hasVaultApi);
  }

  /** What the file input delivered: the picked file's MIME type. */
  datatype PickedFile = PickedFile(mimeType: string)

  class VaultSetupForm {
    const session: Session
    /** Whether `window.electronAPI` exists at all. */
    const hasElectronApi: bool
    var loading: bool
    var error: Option<string>
    var name: string
    /** The chosen image as a data URI, for the preview. */
    var avatar: Option<string>

    constructor(session: Session, hasElectronApi: bool)
      ensures this.session == session && this.hasElectronApi == hasElectronApi
      ensures !loading && error.None? && name == "" && avatar.None?
    {
      this.session := session;
      this.hasElectronApi := hasElectronApi;
      loading := false;
      error := None;
      name := "";
      avatar := None;
    }

    /** `handleFileChange` with the picked file (`None` when the dialog was dismissed) and
        what the reader produced (`None` when reading failed): a file that is not an image
        is refused; otherwise the preview becomes what was read, and a failed read both
        reports the error and clears the preview, as the reader's `loadend` follows its
        `error`. */
    method HandleFileChange(file: Option<PickedFile>, read: Option<string>)
      modifies this
      ensures file.None? ==> avatar == old(avatar) && error == old(error)
      ensures file.Some? && !StartsWith(file.value.mimeType, ImageTypePrefix) ==>
        avatar == old(avatar) && error == Some(NotImageError)
      ensures file.Some? && StartsWith(file.value.mimeType, ImageTypePrefix) ==>
        avatar == read && error == (if read.None? then Some(ReadError) else old(error))
      ensures loading == old(loading) && name == old(name)
    {
      if file.None? {
        return;
      }
      if !StartsWith(file.value.mimeType, ImageTypePrefix) {
        error := Some(NotImageError);
        return;
      }
      if read.None? {
        error := Some(ReadError);
      }
      avatar := read;
    }

    /** `handleAvatarClick` with the image the native dialog returned (`None` when it was
        cancelled); `dialogFails` stands for the dialog call throwing. Without the vault
        API, or when the dialog throws, the hidden file input is opened instead
        (`fallback`), and its choice arrives through `HandleFileChange`. */
    method HandleAvatarClick(picked: Option<string>, dialogFails: bool) returns (fallback: bool)
      modifies this
      ensures fallback <==> !session.hasVaultApi || dialogFails
      ensures !fallback && Present(picked) ==> avatar == picked
      ensures fallback || !Present(picked) ==> avatar == old(avatar)
      ensures error == old(error) && loading == old(loading) && name == old(name)
    {
      if !session.hasVaultApi || dialogFails {
        return true;
      }
      if Present(picked) {
        avatar := picked;
      }
      return false;
    }

    /** `handleRemoveAvatar`: the preview is cleared, so no avatar will be stored. */
    method HandleRemoveAvatar()
      modifies this
      ensures avatar.None?
      ensures forall files, u, v, hasVaultApi :: !AvatarStored(avatar, hasVaultApi, files, u, v)
      ensures error == old(error) && loading == old(loading) && name == old(name)
    {
      avatar := None;
    }

    /** The avatar and profile steps of `handleSelectFolder` in the opened vault `v`, then
        the profile reloaded. */
    method StoreOnboarding(v: string)
      requires v != "" && IsVault(session.main.files, v)
      modifies session, session.main
      ensures session.main.files ==
        OnboardedFiles(old(session.main.files), session.main.unwritable, v, name, avatar, session.hasVaultApi)
      ensures session.state ==
        if session.hasVaultApi then WithProfile(old(session.state), session.main.files, v, session.main.LoadAvatar(v))
        else old(session.state)
    {
      ghost var f1 := session.main.files;
      var avatarPath: Option<string> := None;
      if Present(avatar) && session.hasVaultApi {
        var saved := session.main.SaveAvatar(v, avatar.value);
        if saved.AvatarSaved? && saved.avatarPath != "" {
          avatarPath := Some(saved.avatarPath);
        }
      }
      assert avatarPath.Some? <==> AvatarStored(avatar, session.hasVaultApi, f1, session.main.unwritable, v);
      assert session.main.files == WithAvatar(f1, session.main.unwritable, v, avatar, session.hasVaultApi);
      var trimmed := Trim(name);
      if trimmed != "" || avatarPath.Some? {
        var profile := Profile(if trimmed != "" then Some(trimmed) else None, avatarPath, 0.0, 0.0, 0.0, 0, Male, Moderate);
        var _ := session.SaveProfile(profile, Some(v));
      }
      session.LoadProfile(v);
    }

    /** The folder step of `handleSelectFolder`: `selectVaultFolder`, seen through what the
        rest of the handler relies on: the opened path, the vault loaded into the state and
        the files it leaves. */
    method OpenFolder(picked: Option<string>) returns (r: Option<string>)
      modifies session, session.main
      ensures var u := session.main.unwritable;
        r.Some? <==> session.hasVaultApi && Present(picked) && InitVaultSucceeds(old(session.main.files), u, picked.value)
      ensures r.None? ==> session.state == old(session.state) && Keeps(old(session.main.files), session.main.files, {})
      ensures r.Some? ==>
        && r == picked && session.state.vaultPath == picked && IsVault(session.main.files, r.value)
        && (var ready := InitVaultFiles(old(session.main.files), r.value);
            session.state == Loaded(old(session.state).(vaultPath := r), ready, r.value, AvatarIn(ready, r.value)))
        && session.main.files ==
             OpenedFiles(old(session.main.files), session.main.unwritable, session.main.SettingsPath(), r.value,
                         session.hasSettingsApi)
    {
      r := session.SelectVaultFolder(picked);
    }

    /** The `try` block of `handleSelectFolder`: the folder step, then, when a vault was
        opened, its avatar and first profile stored and the profile read back. The files
        once the vault is opened are `atOpen`. */
    method OpenAndOnboard(picked: Option<string>) returns (r: Option<string>, ghost atOpen: Files)
      modifies session, session.main
      ensures var u := session.main.unwritable;
        r.Some? <==> session.hasVaultApi && Present(picked) && InitVaultSucceeds(old(session.main.files), u, picked.value)
      ensures r.None? ==> session.state == old(session.state) && Keeps(old(session.main.files), session.main.files, {})
      ensures r.Some? ==>
        var v := r.value;
        var u := session.main.unwritable;
        && r == picked && IsVault(atOpen, v)
        && atOpen == OpenedFiles(old(session.main.files), u, session.main.SettingsPath(), v, session.hasSettingsApi)
        && session.main.files == OnboardedFiles(atOpen, u, v, name, avatar, true)
        && session.state.vaultPath == picked
        && (var ready := InitVaultFiles(old(session.main.files), v);
            session.state ==
              WithProfile(Loaded(old(session.state).(vaultPath := picked), ready, v, AvatarIn(ready, v)),
                          session.main.files, v, session.main.LoadAvatar(v)))
    {
      atOpen := session.main.files;
      r := OpenFolder(picked);
      if r.None? {
        return;
      }
      atOpen := session.main.files;
      StoreOnboarding(r.value);
    }

    /** `handleSelectFolder` with the folder the dialog returned. Outside Electron only the
        message changes. When no vault is opened the message says so and nothing is
        written. Otherwise the vault is initialised and remembered, which leaves the files
        `atOpen`; the chosen avatar and the first profile are then stored in it, and the
        profile is read back. */
    method HandleSelectFolder(picked: Option<string>) returns (ghost atOpen: Files)
      modifies this, session, session.main
      ensures !hasElectronApi ==>
        && error == Some(NotElectronError) && loading == old(loading)
        && session.main.files == old(session.main.files) && session.state == old(session.state)
      ensures hasElectronApi ==> !loading
      ensures avatar == old(avatar) && name == old(name)
      ensures var u := session.main.unwritable;
        hasElectronApi && !(session.hasVaultApi && Present(picked) && InitVaultSucceeds(old(session.main.files), u, picked.value)) ==>
          && error == Some(NoFolderError) && session.state == old(session.state)
          && Keeps(old(session.main.files), session.main.files, {})
      ensures var u := session.main.unwritable;
        hasElectronApi && session.hasVaultApi && Present(picked) && InitVaultSucceeds(old(session.main.files), u, picked.value) ==>
          var v := picked.value;
          && error.None? && IsVault(atOpen, v)
          && atOpen == OpenedFiles(old(session.main.files), u, session.main.SettingsPath(), v, session.hasSettingsApi)
          && session.main.files == OnboardedFiles(atOpen, u, v, name, avatar, true)
          && session.state.vaultPath == picked
          && (var ready := InitVaultFiles(old(session.main.files), v);
              session.state ==
                WithProfile(Loaded(old(session.state).(vaultPath := picked), ready, v, AvatarIn(ready, v)),
                            session.main.files, v, session.main.LoadAvatar(v)))
          && (ProfileAt(session.main.files, Join(v, ProfileFile)).Some? ==>
                session.state.profile ==
                  Some(ResolveAvatar(ProfileAt(session.main.files, Join(v, ProfileFile)).value, session.main.LoadAvatar(v))))
    {
      atOpen := session.main.files;
      if !hasElectronApi {
        error := Some(NotElectronError);
        return;
      }
      loading := true;
      error := None;
      var vaultPath;
      vaultPath, atOpen := OpenAndOnboard(picked);
      if vaultPath.None? {
        error := Some(NoFolderError);
        loading := false;
        return;
      }
      loading := false;
    }
  }
}
