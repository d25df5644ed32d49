/** The IPC handlers of the Electron main process (electron/main.ts) over a file map.
    Every failing `fs` call becomes an error outcome, as the handlers' `catch` blocks make it. */
module MainProcess {
  import opened Wrappers
  import opened Types
  import opened Strings
  import opened Lists
  import opened Vfs

  const SettingsFile := "settings.json"
  const LastVaultKey := "lastVaultPath"
  const ConfigFile := "config.json"
  const ProfileFile := "profile.json"
  const HistoryFile := "history.json"
  const ActiveFastFile := "active-fast.json"
  const AvatarFile := "avatar.png"
  const PhotosDir := "photos"

  /** The message of a failed `fs` call; the operating system's wording is not modelled. */
  const IoError := "I/O error"
  const InvalidImageData := "Invalid image data format"

  datatype AvatarSaveResult = AvatarSaved(avatarPath: string) | AvatarNotSaved(error: string)

  /** The entry `history:add-entry` receives: `date` is the instant of its ISO text. */
  datatype NewEntry = NewEntry(date: int, weight: Option<real>, photoBase64: Option<string>, notes: Option<string>)

  datatype AddEntryResult = EntryAdded(entry: ProgressEntry) | EntryNotAdded(error: string)

  // ── Settings ───────────────────────────────────────────────────────────

  /** `readSettings`: the parsed settings object, `{}` when the file is missing or unreadable. */
  function SettingsIn(files: Files, p: string): map<string, string> {
    match DocAt(files, p)
    case Some(SettingsDoc(m)) => m
    case _ => map[]
  }

  /** `{ ...current, ...data }` */
  function MergeSettings(current: map<string, string>, data: map<string, string>): (r: map<string, string>)
    ensures r.Keys == current.Keys + data.Keys
    ensures forall k :: k in data ==> r[k] == data[k]
    ensures forall k :: k in current && k !in data ==> r[k] == current[k]
  {
    current + data
  }

  /** A directory that holds a `config.json`. */
  predicate IsVault(files: Files, v: string) {
    v in files && files[v].Dir? && Join(v, ConfigFile) in files
  }

  /** `settings:get-last-vault`: the remembered path, when it is non-empty and names a vault. */
  function ValidLastVault(files: Files, settings: map<string, string>): (r: Option<string>)
    ensures r.Some? <==> LastVaultKey in settings && settings[LastVaultKey] != "" && IsVault(files, settings[LastVaultKey])
    ensures r.Some? ==> r.value == settings[LastVaultKey]
  {
    if LastVaultKey !in settings || settings[LastVaultKey] == "" then None
    else if IsVault(files, settings[LastVaultKey]) then Some(settings[LastVaultKey])
    else None
  }

  // ── Paths ──────────────────────────────────────────────────────────────

  /** `path.isAbsolute` on POSIX paths. */
  predicate IsAbsolute(p: string) {
    p != [] && p[0] == '/'
  }

  function ResolveInVault(v: string, p: string): string {
    if IsAbsolute(p) then p else Join(v, p)
  }

  /** `path.dirname` (trailing separators are not modelled). */
  function Dirname(p: string): (d: string)
    ensures d == "." || d == "/" || (|d| < |p| && p == d + p[|d|..] && p[|d|] == '/')
  {
    var slash := LastIndexOf(p, '/');
    if slash < 0 then "." else if slash == 0 then "/" else p[..slash]
  }

  /** The directory part ends at the last separator: a path without one lies in `.`, a
      path whose separators all lead it lies in the root, and otherwise the separator
      right after the directory part is the last one. */
  lemma DirnameAtLastSeparator(p: string)
    ensures '/' !in p ==> Dirname(p) == "."
    ensures Dirname(p) == "/" ==> p[0] == '/' && forall i :: 1 < i < |p| ==> p[i] != '/'
    ensures var d := Dirname(p);
      '/' in p && d != "/" ==>
        |d| < |p| && p[..|d|] == d && p[|d|] == '/' && forall i :: |d| < i < |p| ==> p[i] != '/'
  {
    var slash := LastIndexOf(p, '/');
    if slash < 0 {
      assert forall i :: 0 <= i < |p| ==> p[i] != '/';
    } else {
      assert p[slash] == '/';
    }
  }

  // ── Vault initialisation ───────────────────────────────────────────────

  function DefaultConfig(v: string): Config {
    Config(v, DarkTheme, true, [DangerZone(18, 20)], Kg)
  }

  const DefaultProfile := Profile(Some(""), None, 0.0, 0.0, 0.0, 0, Male, Moderate)

  const DefaultHistory := History([], None)

  function FillIfAbsent(f: Files, p: string, n: Node): (g: Files)
    ensures p in g && (p !in f ==> g[p] == n)
    ensures forall q :: q in f ==> q in g && g[q] == f[q]
    ensures forall q :: q in g ==> q in f || q == p
  {
    if p in f then f else f[p := n]
  }

  /** The files after a successful `vault:init-vault`: the vault directory, and each of the
      three documents with its default where nothing was there. */
  function InitVaultFiles(f: Files, v: string): Files {
    var g := WithDir(f, v);
    var g := FillIfAbsent(g, Join(v, ConfigFile), Text(ConfigDoc(DefaultConfig(v))));
    var g := FillIfAbsent(g, Join(v, ProfileFile), Text(ProfileDoc(DefaultProfile)));
    FillIfAbsent(g, Join(v, HistoryFile), Text(HistoryDoc(DefaultHistory)))
  }

  /** `vault:init-vault` succeeds when the directory can be made and each missing document
      can be created. */
  predicate InitVaultSucceeds(files: Files, unwritable: set<string>, v: string) {
    CanMkdir(files, unwritable, v)
    && (Join(v, ConfigFile) in files || Join(v, ConfigFile) !in unwritable)
    && (Join(v, ProfileFile) in files || Join(v, ProfileFile) !in unwritable)
    && (Join(v, HistoryFile) in files || Join(v, HistoryFile) !in unwritable)
  }

  /** Initialising twice is initialising once: the second call finds all three files and
      the directory, and writes nothing. */
  lemma InitVaultIdempotent(f: Files, v: string)
    ensures InitVaultFiles(InitVaultFiles(f, v), v) == InitVaultFiles(f, v)
  {
    var g := InitVaultFiles(f, v);
    assert v in g && g[v] == WithDir(f, v)[v] by {
      JoinDistinct(v, ConfigFile, ProfileFile);
    }
    assert WithDir(g, v) == g;
  }

  /** Initialising keeps every file that was there and gives the vault all three documents,
      with their defaults exactly where they were missing. */
  lemma InitVaultFilesContent(f: Files, v: string)
    ensures forall p :: p in f ==> p in InitVaultFiles(f, v) && InitVaultFiles(f, v)[p] == f[p]
    ensures IsVault(InitVaultFiles(f, v), v) || (v in f && !f[v].Dir?)
    ensures Join(v, ProfileFile) in InitVaultFiles(f, v) && Join(v, HistoryFile) in InitVaultFiles(f, v)
    ensures Join(v, ConfigFile) !in f ==> ConfigAt(InitVaultFiles(f, v), Join(v, ConfigFile)) == Some(DefaultConfig(v))
    ensures Join(v, ProfileFile) !in f ==> ProfileAt(InitVaultFiles(f, v), Join(v, ProfileFile)) == Some(DefaultProfile)
    ensures Join(v, HistoryFile) !in f ==> HistoryAt(InitVaultFiles(f, v), Join(v, HistoryFile)) == Some(DefaultHistory)
  {
    JoinDistinct(v, ConfigFile, ProfileFile);
    JoinDistinct(v, ConfigFile, HistoryFile);
    JoinDistinct(v, ProfileFile, HistoryFile);
  }

  /** The only directory initialising may add is the vault itself. */
  lemma InitVaultAddsNoOtherDir(f: Files, v: string)
    ensures forall p :: p in InitVaultFiles(f, v) && p !in f ==> p == v || InitVaultFiles(f, v)[p].Text?
  {
  }

  /** The documents, the avatar and the photo folder of a vault are different paths,
      each different from the vault itself, and the documents and the avatar sit directly
      in it. */
  lemma VaultPathsDistinct(v: string)
    requires v != ""
    ensures var cp, pp, hp := Join(v, ConfigFile), Join(v, ProfileFile), Join(v, HistoryFile);
      var ap, fp, photos := Join(v, AvatarFile), Join(v, ActiveFastFile), Join(v, PhotosDir);
      && cp != pp && cp != hp && cp != ap && cp != fp && cp != photos
      && pp != hp && pp != ap && pp != fp && pp != photos
      && hp != ap && hp != fp && hp != photos
      && ap != fp && ap != photos && fp != photos
      && v !in {cp, pp, hp, ap, fp, photos}
      && Dirname(cp) == v && Dirname(pp) == v && Dirname(hp) == v && Dirname(ap) == v && Dirname(fp) == v
  {
    assert ProfileFile[1] != HistoryFile[1] && ProfileFile[1] != PhotosDir[1];
    assert ConfigFile[0] != AvatarFile[0] && ActiveFastFile[1] != AvatarFile[1];
    JoinDistinct(v, ConfigFile, ProfileFile);
    JoinDistinct(v, ConfigFile, HistoryFile);
    JoinDistinct(v, ConfigFile, AvatarFile);
    JoinDistinct(v, ConfigFile, ActiveFastFile);
    JoinDistinct(v, ConfigFile, PhotosDir);
    JoinDistinct(v, ProfileFile, HistoryFile);
    JoinDistinct(v, ProfileFile, AvatarFile);
    JoinDistinct(v, ProfileFile, ActiveFastFile);
    JoinDistinct(v, ProfileFile, PhotosDir);
    JoinDistinct(v, HistoryFile, AvatarFile);
    JoinDistinct(v, HistoryFile, ActiveFastFile);
    JoinDistinct(v, HistoryFile, PhotosDir);
    JoinDistinct(v, AvatarFile, ActiveFastFile);
    JoinDistinct(v, AvatarFile, PhotosDir);
    JoinDistinct(v, ActiveFastFile, PhotosDir);
    DirnameOfJoin(v, ConfigFile);
    DirnameOfJoin(v, ProfileFile);
    DirnameOfJoin(v, HistoryFile);
    DirnameOfJoin(v, AvatarFile);
    DirnameOfJoin(v, ActiveFastFile);
  }

  // ── Progress journal ───────────────────────────────────────────────────

  function DateOf(e: ProgressEntry): int { e.date }

  function IdOf(e: ProgressEntry): string { e.id }

  function EnrichedDate(e: EnrichedEntry): int { e.entry.date }

  /** The history `add-entry` starts from: the stored one with a missing journal read as
      empty, or `{ fasts: [], progressEntries: [] }` when the file is missing or unreadable. */
  function Journal(files: Files, hp: string): (h: History)
    ensures h.progressEntries.Some?
    ensures HistoryAt(files, hp).Some? ==> h.fasts == HistoryAt(files, hp).value.fasts
  {
    match HistoryAt(files, hp)
    case Some(h) => History(h.fasts, Some(h.progressEntries.GetOr([])))
    case None => History([], Some([]))
  }

  /** Push then sort newest first: the journal gains exactly the new entry and is ordered. */
  function AddToJournal(entries: seq<ProgressEntry>, entry: ProgressEntry): (r: seq<ProgressEntry>)
    ensures SortedDesc(r, DateOf)
    ensures multiset(r) == multiset(entries) + multiset{entry}
    ensures |r| == |entries| + 1
  {
    SortDescSorted(entries + [entry], DateOf);
    SortDesc(entries + [entry], DateOf)
  }

  /** On a journal already ordered newest first the new entry goes in behind every entry
      that is not older than it, and the others keep their order. */
  lemma AddToSortedJournal(entries: seq<ProgressEntry>, entry: ProgressEntry)
    requires SortedDesc(entries, DateOf)
    ensures AddToJournal(entries, entry) == InsertDesc(entries, entry, DateOf)
  {
    PushThenSort(entries, entry, DateOf);
  }

  function EntryId(now: nat, suffix: string): string {
    "entry_" + NatToDecimal(now) + "_" + suffix
  }

  /** A JPEG photo is stored with the `.jpg` extension; any other subtype keeps its name. */
  function PhotoExtension(subtype: string): string {
    if subtype == "jpeg" then "jpg" else subtype
  }

  function PhotoFileName(subtype: string, now: nat): string {
    "photo_" + NatToDecimal(now) + "." + PhotoExtension(subtype)
  }

  /** The photo `add-entry` stores: its file name under `photos/` and its payload, when a
      photo is given and is an image data URI. */
  function PhotoToStore(photo: Option<string>, now: nat): Option<(string, string)> {
    if Present(photo) then
      match MatchImageDataUri(photo.value)
      case Some((subtype, payload)) => Some((PhotoFileName(subtype, now), payload))
      case None => None
    else None
  }

  function PhotoFiles(photosDir: string, photo: Option<string>, now: nat): set<string> {
    match PhotoToStore(photo, now)
    case Some((name, _)) => {Join(photosDir, name)}
    case None => {}
  }

  /** The journal entry `add-entry` builds: the weight exactly when one was given, the notes
      only when non-empty, and a `photos/photo_<now>.<ext>` path only for a photo it stored. */
  function StoredEntry(e: NewEntry, now: nat, suffix: string): (r: ProgressEntry)
    ensures r.id == EntryId(now, suffix) && r.date == e.date && r.weight == e.weight
    ensures r.notes.Some? <==> Present(e.notes)
    ensures r.notes.Some? ==> r.notes == e.notes
    ensures r.photoPath.Some? <==> Present(e.photoBase64) && MatchImageDataUri(e.photoBase64.value).Some?
    ensures r.photoPath.Some? ==>
      r.photoPath.value == PhotosDir + "/" + PhotoFileName(MatchImageDataUri(e.photoBase64.value).value.0, now)
  {
    var photoPath :=
      match PhotoToStore(e.photoBase64, now)
      case Some((name, _)) => Some(PhotosDir + "/" + name)
      case None => None;
    ProgressEntry(EntryId(now, suffix), e.date, e.weight, photoPath, if Present(e.notes) then e.notes else None)
  }

  /** Neither the photos directory nor a photo file is the history file. */
  lemma PhotoFileNotHistory(v: string, photo: Option<string>, now: nat)
    ensures Join(v, HistoryFile) !in PhotoFiles(Join(v, PhotosDir), photo, now)
    ensures Join(v, HistoryFile) != Join(v, PhotosDir)
  {
    JoinDistinct(v, PhotosDir, HistoryFile);
    match PhotoToStore(photo, now)
    case Some((name, _)) =>
      JoinJoin(v, PhotosDir, name);
      assert (PhotosDir + "/" + name)[0] == 'p';
      JoinDistinct(v, PhotosDir + "/" + name, HistoryFile);
    case None =>
  }

  /** The `photoBase64` that `get-all` attaches to an entry. */
  function PhotoDataUri(files: Files, v: string, e: ProgressEntry): Option<string> {
    if Present(e.photoPath) then FileToDataUri(files, Join(v, e.photoPath.value)) else None
  }

  function Enricher(files: Files, v: string): ProgressEntry -> EnrichedEntry {
    e => EnrichedEntry(e, PhotoDataUri(files, v, e))
  }

  /** The index `progressEntries.find(e => e.id === id)` stops at, or -1. */
  function FirstIndexWithId(s: seq<ProgressEntry>, id: string): (i: int)
    ensures -1 <= i < |s|
    ensures i >= 0 ==> s[i].id == id
    ensures forall j :: 0 <= j < |s| && (i < 0 || j < i) ==> s[j].id != id
  {
    if s == [] then -1
    else if s[0].id == id then 0
    else
      var k := FirstIndexWithId(s[1..], id);
      if k < 0 then -1 else k + 1
  }

  /** The photo file `delete-entry` tries to remove, if the first entry with `id` has one. */
  function PhotoToUnlink(v: string, entries: seq<ProgressEntry>, id: string): Option<string> {
    var i := FirstIndexWithId(entries, id);
    if i >= 0 && Present(entries[i].photoPath) then Some(Join(v, entries[i].photoPath.value)) else None
  }

  /** The paths `delete-entry` may change: the history file and the photo it unlinks. */
  function DeleteTouches(v: string, h: Option<History>, id: string): set<string> {
    if h.Some? && h.value.progressEntries.Some? then
      match PhotoToUnlink(v, h.value.progressEntries.value, id)
      case Some(p) => {Join(v, HistoryFile), p}
      case None => {Join(v, HistoryFile)}
    else {Join(v, HistoryFile)}
  }

  /** `vault:write-file` succeeds when the parent directory can be made and the file written. */
  predicate WriteSucceeds(files: Files, unwritable: set<string>, p: string) {
    CanMkdir(files, unwritable, Dirname(p)) && Writable(WithDir(files, Dirname(p)), unwritable, p)
  }

  /** The files after `vault:write-file` stored `doc` at `p`. */
  function Written(files: Files, p: string, doc: Document): Files {
    WithDir(files, Dirname(p))[p := Text(doc)]
  }

  /** The files after `vault:write-file`, whether it succeeded or not: a failed write may
      still have created the parent directory. */
  function AfterWrite(files: Files, unwritable: set<string>, p: string, doc: Document): Files {
    if WriteSucceeds(files, unwritable, p) then Written(files, p, doc)
    else if CanMkdir(files, unwritable, Dirname(p)) then WithDir(files, Dirname(p))
    else files
  }

  /** A write touches only its own path and its parent directory; the path then holds the
      document when the write succeeded, and is as it was otherwise. */
  lemma AfterWriteFootprint(files: Files, unwritable: set<string>, p: string, doc: Document)
    requires p != Dirname(p)
    ensures Keeps(files, AfterWrite(files, unwritable, p, doc), {p, Dirname(p)})
    ensures AfterWrite(files, unwritable, p, doc).Keys <= files.Keys + {p, Dirname(p)}
    ensures WriteSucceeds(files, unwritable, p) ==>
      p in AfterWrite(files, unwritable, p, doc) && AfterWrite(files, unwritable, p, doc)[p] == Text(doc)
    ensures !WriteSucceeds(files, unwritable, p) ==> SameAt(files, AfterWrite(files, unwritable, p, doc), p)
  {
  }

  /** A write leaves every other path alone, except that it may create its parent directory. */
  lemma AfterWriteElsewhere(files: Files, unwritable: set<string>, p: string, doc: Document, q: string)
    requires q != p && q != Dirname(p)
    ensures SameAt(files, AfterWrite(files, unwritable, p, doc), q)
  {
  }

  /** Two successful writes to different files, the first not the second's directory:
      each file then holds its own document. */
  lemma WriteThenWrite(files: Files, unwritable: set<string>, p: string, d: Document, q: string, e: Document)
    requires p != q && p != Dirname(q) && d != Unparseable && e != Unparseable
    requires WriteSucceeds(files, unwritable, p)
    requires WriteSucceeds(Written(files, p, d), unwritable, q)
    ensures var after := AfterWrite(AfterWrite(files, unwritable, p, d), unwritable, q, e);
      DocAt(after, p) == Some(d) && DocAt(after, q) == Some(e)
  {
    var mid := Written(files, p, d);
    assert AfterWrite(files, unwritable, p, d) == mid;
    AfterWriteElsewhere(mid, unwritable, q, e, p);
  }

  /** The parent of a file directly inside `v` is `v` (the root when `v` is empty). */
  lemma DirnameOfJoin(v: string, name: string)
    requires '/' !in name
    ensures Dirname(Join(v, name)) == if v == "" then "/" else v
  {
    var p := Join(v, name);
    forall j | |v| < j < |p| ensures p[j] != '/' {
      assert p[j] == name[j - |v| - 1];
    }
    LastIndexOfAt(p, '/', |v|);
    assert p[..|v|] == v;
  }

  /** Every file that was there, outside `except`, is still there, unchanged. */
  predicate Keeps(before: Files, after: Files, except: set<string>) {
    forall x :: x in before && x !in except ==> x in after && after[x] == before[x]
  }

  /** Exceptions add up along a sequence of changes. */
  lemma KeepsTrans(a: Files, b: Files, c: Files, x: set<string>, y: set<string>)
    requires Keeps(a, b, x) && Keeps(b, c, y)
    ensures Keeps(a, c, x + y)
  {
  }

  /** A path outside both the exceptions of `Keeps` and the paths that may have been
      added is unchanged. */
  lemma KeptAt(before: Files, after: Files, except: set<string>, added: set<string>, q: string)
    requires Keeps(before, after, except) && after.Keys <= before.Keys + added
    requires q !in except && q !in added
    ensures SameAt(before, after, q)
  {
  }

  /** What `history:add-entry` for entry `e` in vault `v` does to the files `f0`, leaving
      `f1`, when it answers `r`: the entry is added exactly when the photo step goes through and
      the history file can be written; an added entry is `e` as stored, its photo (if any) is
      written under the photos directory, and the journal becomes the one read before with
      the entry added; a refused entry leaves the journal as it was; nothing but the
      journal, the photos directory and the new photo file is touched. */
  predicate AddEntryEffect(f0: Files, f1: Files, unwritable: set<string>, v: string, e: NewEntry, now: nat,
                          suffix: string, r: AddEntryResult) {
    var hp, pf := Join(v, HistoryFile), PhotoFiles(Join(v, PhotosDir), e.photoBase64, now);
    var before := Journal(f0, hp);
    && (r.EntryAdded? <==>
          PhotoStepSucceeds(f0, unwritable, Join(v, PhotosDir), e.photoBase64, now) && Writable(f0, unwritable, hp))
    && (r.EntryAdded? ==> r.entry == StoredEntry(e, now, suffix))
    && (r.EntryAdded? && r.entry.photoPath.Some? ==>
          Join(v, r.entry.photoPath.value) in f1
          && f1[Join(v, r.entry.photoPath.value)] == Blob(PhotoToStore(e.photoBase64, now).value.1))
    && (r.EntryAdded? ==>
          HistoryAt(f1, hp) == Some(History(before.fasts, Some(AddToJournal(before.progressEntries.value, r.entry)))))
    && (r.EntryNotAdded? ==> SameAt(f0, f1, hp))
    && Keeps(f0, f1, {hp} + pf)
    && f1.Keys <= f0.Keys + {hp, Join(v, PhotosDir)} + pf
  }

  /** The photo step of `add-entry` goes through: there is no photo, or `photos/` can be
      made and, when the photo is an image data URI, its file can be written there. A photo
      that is not an image data URI is skipped once the directory exists. */
  predicate PhotoStepSucceeds(files: Files, unwritable: set<string>, photosDir: string, photo: Option<string>, now: nat) {
    !Present(photo)
    || (CanMkdir(files, unwritable, photosDir)
        && (PhotoToStore(photo, now).Some? ==>
              Writable(WithDir(files, photosDir), unwritable, Join(photosDir, PhotoToStore(photo, now).value.0))))
  }

  /** The files along `add-entry`: `f1` after the photo step, `f2` after the history is
      written (when `wrote`). Only the history and the photo change, and the photo
      survives the history write. */
  lemma AddEntryFiles(f0: Files, f1: Files, f2: Files, v: string, photo: Option<string>, now: nat,
                      wrote: bool, doc: Node)
    requires var pf := PhotoFiles(Join(v, PhotosDir), photo, now);
      Keeps(f0, f1, pf) && f1.Keys <= f0.Keys + {Join(v, PhotosDir)} + pf
    requires f2 == if wrote then f1[Join(v, HistoryFile) := doc] else f1
    ensures var hp, pf := Join(v, HistoryFile), PhotoFiles(Join(v, PhotosDir), photo, now);
      && Keeps(f0, f2, {hp} + pf)
      && f2.Keys <= f0.Keys + {hp, Join(v, PhotosDir)} + pf
      && (!wrote ==> SameAt(f0, f2, hp))
      && SameAt(f0, f1, hp)
      && (forall q :: q in pf ==> SameAt(f1, f2, q))
  {
    PhotoFileNotHistory(v, photo, now);
  }

  class Main {
    var files: Files
    /** Paths where the operating system refuses to create or change anything. */
    const unwritable: set<string>
    /** `app.getPath('userData')` */
    const userData: string

    constructor(files: Files, unwritable: set<string>, userData: string)
      ensures this.files == files && this.unwritable == unwritable && this.userData == userData
    {
      this.files := files;
      this.unwritable := unwritable;
      this.userData := userData;
    }

    // ── File system primitives ──────────────────────────────────────────

    /** `fs.mkdir(p, { recursive: true })` */
    method Mkdir(p: string) returns (ok: bool)
      modifies this
      ensures ok == CanMkdir(old(files), unwritable, p)
      ensures files == if ok then WithDir(old(files), p) else old(files)
    {
      ok := CanMkdir(files, unwritable, p);
      if ok {
        files := WithDir(files, p);
      }
    }

    /** `fs.writeFile(p, …)` */
    method WriteNode(p: string, n: Node) returns (ok: bool)
      modifies this
      ensures ok == Writable(old(files), unwritable, p)
      ensures files == if ok then old(files)[p := n] else old(files)
    {
      ok := Writable(files, unwritable, p);
      if ok {
        files := files[p := n];
      }
    }

    /** `fs.unlink(p)`: fails on a missing path, a directory or a protected path. */
    method Unlink(p: string) returns (ok: bool)
      modifies this
      ensures ok == (p in old(files) && !old(files)[p].Dir? && p !in unwritable)
      ensures files == if ok then old(files) - {p} else old(files)
    {
      ok := p in files && !files[p].Dir? && p !in unwritable;
      if ok {
        files := files - {p};
      }
    }

    // ── Settings ────────────────────────────────────────────────────────

    function SettingsPath(): string {
      Join(userData, SettingsFile)
    }

    function ReadSettings(): map<string, string>
      reads this
    {
      SettingsIn(files, SettingsPath())
    }

    /** `writeSettings(data)`: the stored settings become the old ones overridden by `data`. */
    method WriteSettings(data: map<string, string>) returns (ok: bool)
      modifies this
      ensures ok == Writable(old(files), unwritable, SettingsPath())
      ensures ok ==> files == old(files)[SettingsPath() := Text(SettingsDoc(MergeSettings(old(ReadSettings()), data)))]
      ensures ok ==> ReadSettings() == MergeSettings(old(ReadSettings()), data)
      ensures !ok ==> files == old(files)
    {
      var merged := MergeSettings(ReadSettings(), data);
      ok := WriteNode(SettingsPath(), Text(SettingsDoc(merged)));
    }

    function GetLastVault(): (r: Option<string>)
      reads this
      ensures r.Some? ==> IsVault(files, r.value) && r.value != ""
      ensures r.Some? ==> LastVaultKey in ReadSettings() && ReadSettings()[LastVaultKey] == r.value
    {
      ValidLastVault(files, ReadSettings())
    }

    /** `settings:set-last-vault`: remembers `v` and keeps every other setting. */
    method SetLastVault(v: string) returns (r: Outcome)
      modifies this
      ensures r.Success? == Writable(old(files), unwritable, SettingsPath())
      ensures r.Success? ==> ReadSettings() == old(ReadSettings())[LastVaultKey := v]
      ensures r.Success? ==> GetLastVault() == if v != "" && IsVault(files, v) then Some(v) else None
      ensures r.Success? ==> files == old(files)[SettingsPath() := Text(SettingsDoc(ReadSettings()))]
      ensures r.Failure? ==> files == old(files)
    {
      var ok := WriteSettings(map[LastVaultKey := v]);
      if ok {
        assert ReadSettings() == old(ReadSettings())[LastVaultKey := v];
        r := Success;
      } else {
        r := Failure(IoError);
      }
    }

    // ── Avatar ──────────────────────────────────────────────────────────

    /** `vault:save-avatar`: decodes an image data URI into `<vault>/avatar.png`. */
    method SaveAvatar(v: string, imageData: string) returns (r: AvatarSaveResult)
      modifies this
      ensures MatchImageDataUri(imageData).None? ==> r == AvatarNotSaved(InvalidImageData) && files == old(files)
      ensures r.AvatarSaved? <==>
        (MatchImageDataUri(imageData).Some? && CanMkdir(old(files), unwritable, v)
         && Writable(old(files), unwritable, Join(v, AvatarFile)))
      ensures r.AvatarSaved? ==>
        (r.avatarPath == AvatarFile
         && files == WithDir(old(files), v)[Join(v, AvatarFile) := Blob(MatchImageDataUri(imageData).value.1)])
      ensures r.AvatarNotSaved? ==> files == old(files) || files == WithDir(old(files), v)
      ensures r.AvatarNotSaved? ==> Keeps(old(files), files, {v}) && files.Keys <= old(files).Keys + {v}
    {
      var m := MatchImageDataUri(imageData);
      if m.None? {
        return AvatarNotSaved(InvalidImageData);
      }
      var avatarFile := Join(v, AvatarFile);
      var ok := Mkdir(v);
      if !ok {
        return AvatarNotSaved(IoError);
      }
      ok := WriteNode(avatarFile, Blob(m.value.1));
      if !ok {
        return AvatarNotSaved(IoError);
      }
      r := AvatarSaved(AvatarFile);
    }

    /** The avatar path stored in the vault's profile, when it is truthy. */
    function StoredAvatar(v: string): Option<string>
      reads this
    {
      match ProfileAt(files, Join(v, ProfileFile))
      case Some(p) => if Present(p.avatar) then p.avatar else None
      case None => None
    }

    /** `user:load-avatar`: the stored avatar, resolved against the vault, as a data URI;
        `null` when the profile, its avatar or the image file is missing. */
    function LoadAvatar(v: string): (r: Option<string>)
      reads this
      ensures StoredAvatar(v).None? ==> r.None?
      ensures r.Some? <==>
        (StoredAvatar(v).Some? && ResolveInVault(v, StoredAvatar(v).value) in files
         && files[ResolveInVault(v, StoredAvatar(v).value)].Blob?)
    {
      match StoredAvatar(v)
      case None => None
      case Some(a) => FileToDataUri(files, ResolveInVault(v, a))
    }

    // ── Generic documents ───────────────────────────────────────────────

    /** `vault:read-file` */
    function ReadFile(p: string): (r: Option<Document>)
      reads this
      ensures r.Some? ==> p in files && files[p] == Text(r.value) && r.value != Unparseable
      ensures r.None? ==> p !in files || !files[p].Text? || files[p].doc == Unparseable
    {
      DocAt(files, p)
    }

    /** `vault:file-exists` */
    function FileExists(p: string): (r: bool)
      reads this
      ensures r <==> p in files
    {
      p in files
    }

    /** `vault:write-file`: creates the parent directory, then writes the document. */
    method WriteFile(p: string, doc: Document) returns (r: Outcome)
      modifies this
      ensures r.Success? <==> WriteSucceeds(old(files), unwritable, p)
      ensures files == AfterWrite(old(files), unwritable, p, doc)
      ensures r.Success? && doc != Unparseable ==> ReadFile(p) == Some(doc)
      ensures r.Failure? ==> Keeps(old(files), files, {Dirname(p)})
    {
      var ok := Mkdir(Dirname(p));
      if !ok {
        return Failure(IoError);
      }
      ok := WriteNode(p, Text(doc));
      r := if ok then Success else Failure(IoError);
    }

    /** `vault:init-vault`: creates the vault directory and each missing document with its
        default. A file that is already there is never overwritten, whatever the outcome. */
    method InitVault(v: string) returns (r: Outcome)
      modifies this
      ensures r.Success? <==> InitVaultSucceeds(old(files), unwritable, v)
      ensures r.Success? ==> files == InitVaultFiles(old(files), v)
      ensures forall p :: p in old(files) ==> p in files && files[p] == old(files)[p]
      ensures files.Keys <= old(files).Keys + {v, Join(v, ConfigFile), Join(v, ProfileFile), Join(v, HistoryFile)}
    {
      var cp, pp, hp := Join(v, ConfigFile), Join(v, ProfileFile), Join(v, HistoryFile);
      JoinDistinct(v, ConfigFile, ProfileFile);
      JoinDistinct(v, ConfigFile, HistoryFile);
      JoinDistinct(v, ProfileFile, HistoryFile);
      var ok := Mkdir(v);
      if !ok {
        return Failure(IoError);
      }
      var configExists, profileExists, historyExists := cp in files, pp in files, hp in files;
      if !configExists {
        ok := WriteNode(cp, Text(ConfigDoc(DefaultConfig(v))));
        if !ok {
          return Failure(IoError);
        }
      }
      if !profileExists {
        ok := WriteNode(pp, Text(ProfileDoc(DefaultProfile)));
        if !ok {
          return Failure(IoError);
        }
      }
      if !historyExists {
        ok := WriteNode(hp, Text(HistoryDoc(DefaultHistory)));
        if !ok {
          return Failure(IoError);
        }
      }
      r := Success;
    }

    /** The photo step of `history:add-entry`: creates `photos/` and writes the decoded
        photo when the data URI matches; a photo that does not match is skipped. */
    method StorePhoto(photosDir: string, photo: Option<string>, now: nat) returns (ok: bool)
      modifies this
      ensures ok == PhotoStepSucceeds(old(files), unwritable, photosDir, photo, now)
      ensures !Present(photo) ==> ok && files == old(files)
      ensures ok && PhotoToStore(photo, now).Some? ==>
        var (name, payload) := PhotoToStore(photo, now).value;
        Join(photosDir, name) in files && files[Join(photosDir, name)] == Blob(payload)
      ensures Keeps(old(files), files, PhotoFiles(photosDir, photo, now))
      ensures files.Keys <= old(files).Keys + {photosDir} + PhotoFiles(photosDir, photo, now)
    {
      ok := true;
      if Present(photo) {
        ok := Mkdir(photosDir);
        if ok {
          var m := MatchImageDataUri(photo.value);
          if m.Some? {
            ok := WriteNode(Join(photosDir, PhotoFileName(m.value.0, now)), Blob(m.value.1));
          }
        }
      }
    }

    /** `history:add-entry`, with `Date.now()` as `now` and the random id suffix as `suffix`:
        the journal grows by the new entry and stays sorted newest first. */
    method AddEntry(v: string, e: NewEntry, now: nat, suffix: string) returns (r: AddEntryResult)
      modifies this
      ensures AddEntryEffect(old(files), files, unwritable, v, e, now, suffix, r)
    {
      var hp := Join(v, HistoryFile);
      var photosDir := Join(v, PhotosDir);
      var journal := Journal(files, hp);
      ghost var before := files;
      var ok := StorePhoto(photosDir, e.photoBase64, now);
      ghost var withPhoto := files;
      if !ok {
        AddEntryFiles(before, withPhoto, files, v, e.photoBase64, now, false, Dir);
        return EntryNotAdded(IoError);
      }
      var entry := StoredEntry(e, now, suffix);
      var doc := Text(HistoryDoc(History(journal.fasts, Some(AddToJournal(journal.progressEntries.value, entry)))));
      ok := WriteNode(hp, doc);
      AddEntryFiles(before, withPhoto, files, v, e.photoBase64, now, ok, doc);
      if entry.photoPath.Some? {
        JoinJoin(v, PhotosDir, PhotoToStore(e.photoBase64, now).value.0);
        assert Join(v, entry.photoPath.value) in PhotoFiles(photosDir, e.photoBase64, now);
      }
      r := if ok then EntryAdded(entry) else EntryNotAdded(IoError);
    }

    /** `history:get-all`: every journal entry with its photo inlined, newest first; an
        empty list when the history cannot be read. */
    function GetAll(v: string): (r: seq<EnrichedEntry>)
      reads this
      ensures var entries := Journal(files, Join(v, HistoryFile)).progressEntries.value;
        r == Map(Enricher(files, v), SortDesc(entries, DateOf))
      ensures HistoryAt(files, Join(v, HistoryFile)).None? ==> r == []
      ensures SortedDesc(r, EnrichedDate)
      ensures forall i :: 0 <= i < |r| ==> r[i].photoBase64 == PhotoDataUri(files, v, r[i].entry)
    {
      var entries := Journal(files, Join(v, HistoryFile)).progressEntries.value;
      var enriched := Map(Enricher(files, v), entries);
      SortDescSorted(enriched, EnrichedDate);
      SortDescMap(Enricher(files, v), entries, DateOf, EnrichedDate);
      SortDesc(enriched, EnrichedDate)
    }

    /** `history:delete-entry`: drops every entry with `id` and, first, the photo of the
        first such entry, ignoring a failed removal. */
    method DeleteEntry(v: string, id: string) returns (r: Outcome)
      modifies this
      ensures HistoryAt(old(files), Join(v, HistoryFile)).None? ==> r.Failure? && files == old(files)
      ensures var h := HistoryAt(old(files), Join(v, HistoryFile));
        h.Some? && h.value.progressEntries.None? ==> r.Success? && files == old(files)
      ensures var h := HistoryAt(old(files), Join(v, HistoryFile));
        r.Success? && h.Some? && h.value.progressEntries.Some? ==>
          HistoryAt(files, Join(v, HistoryFile))
          == Some(History(h.value.fasts, Some(RemoveWithId(h.value.progressEntries.value, id, IdOf))))
      ensures var h := HistoryAt(old(files), Join(v, HistoryFile));
        h.Some? && h.value.progressEntries.Some? ==> (r.Success? <==> Writable(old(files), unwritable, Join(v, HistoryFile)))
      ensures r.Failure? ==> SameAt(old(files), files, Join(v, HistoryFile))
      ensures Keeps(old(files), files, DeleteTouches(v, HistoryAt(old(files), Join(v, HistoryFile)), id))
      ensures files.Keys <= old(files).Keys
    {
      var hp := Join(v, HistoryFile);
      var h := HistoryAt(files, hp);
      if h.None? {
        return Failure(IoError);
      }
      if h.value.progressEntries.None? {
        return Success;
      }
      var entries := h.value.progressEntries.value;
      var photo := PhotoToUnlink(v, entries, id);
      ghost var touched := DeleteTouches(v, h, id);
      assert touched == {hp} + (if photo.Some? then {photo.value} else {});
      ghost var before := files;
      if photo.Some? {
        var _ := Unlink(photo.value);
      }
      assert Keeps(before, files, touched) && files.Keys <= before.Keys;
      assert hp !in unwritable ==> Writable(files, unwritable, hp);
      assert hp in unwritable ==> SameAt(before, files, hp);
      var remaining := History(h.value.fasts, Some(RemoveWithId(entries, id, IdOf)));
      var ok := WriteNode(hp, Text(HistoryDoc(remaining)));
      if ok {
        assert DocAt(files, hp) == Some(HistoryDoc(remaining));
      }
      r := if ok then Success else Failure(IoError);
    }
  }

  /** `user:load-avatar` over the files `files`, outside any main process. */
  function AvatarIn(files: Files, v: string): Option<string> {
    match ProfileAt(files, Join(v, ProfileFile))
    case Some(p) => if Present(p.avatar) then FileToDataUri(files, ResolveInVault(v, p.avatar.value)) else None
    case None => None
  }

  /** The main process loads the avatar its files hold. */
  lemma LoadAvatarIn(m: Main, v: string)
    ensures m.LoadAvatar(v) == AvatarIn(m.files, v)
  {
  }

  /** Whatever the vault, the avatar file is typed PNG. */
  lemma AvatarMimeIsPng(v: string)
    ensures GetMime(Join(v, AvatarFile)) == "image/" + "png"
  {
    AvatarFileName();
    GetMimeOfFileName(v, "avatar", "png");
    PngMime();
  }

  lemma AvatarFileName()
    ensures AvatarFile == "avatar" + "." + "png"
    ensures '/' !in "avatar" && '/' !in "png" && '.' !in "png"
  {
  }

  lemma PngMime()
    ensures MimeOfExtension(ToLowerAscii("png")) == "image/" + "png"
  {
    assert ToLowerAscii("png") == "png";
  }

  /** The avatar file re-encodes as a PNG data URI of its own bytes. */
  lemma AvatarFileDataUri(files: Files, v: string, payload: string)
    requires Join(v, AvatarFile) in files && files[Join(v, AvatarFile)] == Blob(payload)
    ensures FileToDataUri(files, Join(v, AvatarFile)) == Some(ImageDataUri("png", payload))
  {
    AvatarMimeIsPng(v);
    BlobDataUri(files, Join(v, AvatarFile), "png", payload);
  }

  /** An avatar saved from a data URI and recorded in the profile as `avatar.png` loads back
      with the same payload, labelled PNG whatever image type it was saved from; a PNG data
      URI therefore comes back unchanged. */
  lemma SavedAvatarLoadsBack(m: Main, v: string, imageData: string)
    requires MatchImageDataUri(imageData).Some?
    requires ProfileAt(m.files, Join(v, ProfileFile)).Some?
    requires ProfileAt(m.files, Join(v, ProfileFile)).value.avatar == Some(AvatarFile)
    requires Join(v, AvatarFile) in m.files
    requires m.files[Join(v, AvatarFile)] == Blob(MatchImageDataUri(imageData).value.1)
    ensures m.LoadAvatar(v) == Some(ImageDataUri("png", MatchImageDataUri(imageData).value.1))
    ensures MatchImageDataUri(imageData).value.0 == "png" ==> m.LoadAvatar(v) == Some(imageData)
  {
    assert m.StoredAvatar(v) == Some(AvatarFile);
    assert ResolveInVault(v, AvatarFile) == Join(v, AvatarFile);
    AvatarFileDataUri(m.files, v, MatchImageDataUri(imageData).value.1);
  }
}
