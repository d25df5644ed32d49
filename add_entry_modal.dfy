/** The journal's "New Entry" dialog (src/components/HistoryScreen/AddEntryModal.tsx):
    whether anything was filled in, the entry sent to `history:add-entry`, and saving it.
    The date arrives as the timestamp `new Date(date)` gives (`None` for an invalid date,
    on which `toISOString` throws), and the weight as `parseFloat` reads the weight text
    (`None` standing for `NaN`). */
module AddEntryModalView {
  import opened Wrappers
  import opened Types
  import opened Strings
  import opened Vfs
  import opened MainProcess
  import opened VaultSession

  /** `hasData`: a weight or notes that are not blank, or a photo. */
  predicate HasData(weightText: string, photo: Option<string>, notes: string) {
    Trim(weightText) != "" || photo.Some? || Trim(notes) != ""
  }

  /** The entry `handleSave` sends. */
  function BuildEntry(date: int, weightText: string, parsedWeight: Option<real>, photo: Option<string>,
                      notes: string): NewEntry
  {
    NewEntry(date,
             if Trim(weightText) != "" then parsedWeight else None,
             if Present(photo) then photo else None,
             if Trim(notes) != "" then Some(Trim(notes)) else None)
  }

  /** What lands in the journal from the dialog: its date, the parsed weight only when the
      weight text is not blank, the trimmed notes exactly when they are not blank, a photo
      under `photos/` exactly when an image was chosen, and the id stamped by add-entry. */
  lemma StoredDialogEntry(date: int, weightText: string, parsedWeight: Option<real>, photo: Option<string>,
                          notes: string, now: nat, suffix: string)
    ensures var r := StoredEntry(BuildEntry(date, weightText, parsedWeight, photo, notes), now, suffix);
      && r.date == date
      && r.weight == (if Trim(weightText) != "" then parsedWeight else None)
      && (r.notes.Some? <==> Trim(notes) != "")
      && (r.notes.Some? ==> r.notes.value == Trim(notes))
      && (r.photoPath.Some? <==> Present(photo) && MatchImageDataUri(photo.value).Some?)
      && (r.photoPath.Some? ==>
            r.photoPath.value == PhotosDir + "/" + PhotoFileName(MatchImageDataUri(photo.value).value.0, now))
      && r.id == EntryId(now, suffix)
  {
    var t := Trim(notes);
    if t != "" {
      assert Present(Some(t));
    }
  }

  class AddEntryForm {
    const session: Session
    var weightText: string
    var notes: string
    var photo: Option<string>
    var saving: bool
    /** How many times `onSaved` was called. */
    var savedNotices: nat

    constructor(session: Session)
      ensures this.session == session
      ensures weightText == "" && notes == "" && photo.None? && !saving && savedNotices == 0
    {
      this.session := session;
      weightText := "";
      notes := "";
      photo := None;
      saving := false;
      savedNotices := 0;
    }

    /** `handleSelectPhoto` with the image the dialog returned (`None` when cancelled): it
        becomes the photo only when the vault API exists and the answer is not empty. */
    method HandleSelectPhoto(picked: Option<string>)
      modifies this
      ensures photo == if session.hasVaultApi && Present(picked) then picked else old(photo)
      ensures weightText == old(weightText) && notes == old(notes) && saving == old(saving)
      ensures savedNotices == old(savedNotices)
    {
      if session.hasVaultApi && Present(picked) {
        photo := picked;
      }
    }

    /** `handleSave`: nothing is sent without data, an open vault or the history API;
        nothing is sent either when the date field holds no valid date (`date` is `None`),
        because building the entry throws, and the dialog stops saving. Otherwise the built
        entry goes to `add-entry` (its result returned) and `onSaved` is called only when
        the entry was added. */
    method HandleSave(date: Option<int>, parsedWeight: Option<real>, now: nat, suffix: string)
      returns (r: Option<AddEntryResult>)
      modifies this, session.main
      ensures r.Some? <==>
        HasData(weightText, photo, notes) && Present(session.state.vaultPath) && session.hasHistoryApi && date.Some?
      ensures r.None? ==> session.main.files == old(session.main.files)
      ensures !(HasData(weightText, photo, notes) && Present(session.state.vaultPath) && session.hasHistoryApi) ==>
        saving == old(saving)
      ensures HasData(weightText, photo, notes) && Present(session.state.vaultPath) && session.hasHistoryApi ==> !saving
      ensures savedNotices == old(savedNotices) + (if r.Some? && r.value.EntryAdded? then 1 else 0)
      ensures r.Some? ==>
        AddEntryEffect(old(session.main.files), session.main.files, session.main.unwritable, session.state.vaultPath.value,
                       BuildEntry(date.value, weightText, parsedWeight, photo, notes), now, suffix, r.value)
      ensures weightText == old(weightText) && notes == old(notes) && photo == old(photo)
    {
      if !HasData(weightText, photo, notes) || !Present(session.state.vaultPath) || !session.hasHistoryApi {
        return None;
      }
      if date.None? {
        saving := false;
        return None;
      }
      var entry := BuildEntry(date.value, weightText, parsedWeight, photo, notes);
      var result := Send(session.state.vaultPath.value, entry, now, suffix);
      r := Some(result);
    }

    /** The sending part of `handleSave`, for entry `e` and vault `v`: the dialog shows
        itself saving while `add-entry` runs, and `onSaved` follows an added entry. */
    method Send(v: string, e: NewEntry, now: nat, suffix: string) returns (r: AddEntryResult)
      modifies this, session.main
      ensures AddEntryEffect(old(session.main.files), session.main.files, session.main.unwritable, v, e, now, suffix, r)
      ensures !saving && savedNotices == old(savedNotices) + (if r.EntryAdded? then 1 else 0)
      ensures weightText == old(weightText) && notes == old(notes) && photo == old(photo)
    {
      saving := true;
      r := session.main.AddEntry(v, e, now, suffix);
      if r.EntryAdded? {
        savedNotices := savedNotices + 1;
      }
      saving := false;
    }
  }
}
