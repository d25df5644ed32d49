/** The file system as the main process sees it: a map from path to node. JSON documents
    are kept as datatypes (serialisation is not modelled) and binary files keep the base64
    text of their bytes, so that decoding a payload and encoding it again gives it back. */
module Vfs {
  import opened Wrappers
  import opened Types
  import opened Strings

  datatype Document =
    | ConfigDoc(config: Config)
    | ProfileDoc(profile: Profile)
    | HistoryDoc(history: History)
    | ActiveFastDoc(activeFast: ActiveFast)
    | SettingsDoc(settings: map<string, string>)
    | Unparseable  // a text file `JSON.parse` rejects

  datatype Node = Dir | Text(doc: Document) | Blob(base64: string)

  type Files = map<string, Node>

  /** `path.join(dir, name)`, taken as plain concatenation with one separator. */
  function Join(dir: string, name: string): string {
    dir + "/" + name
  }

  lemma JoinInjective(dir: string, a: string, b: string)
    requires Join(dir, a) == Join(dir, b)
    ensures a == b
  {
    assert a == Join(dir, a)[|dir| + 1..];
    assert b == Join(dir, b)[|dir| + 1..];
  }

  lemma JoinJoin(dir: string, a: string, b: string)
    ensures Join(Join(dir, a), b) == Join(dir, a + "/" + b)
  {
  }

  /** Two names under one directory name different files when they differ. */
  lemma JoinDistinct(dir: string, a: string, b: string)
    requires a != b
    ensures Join(dir, a) != Join(dir, b)
  {
    if Join(dir, a) == Join(dir, b) {
      JoinInjective(dir, a, b);
    }
  }

  // ── Reading ────────────────────────────────────────────────────────────

  /** The parsed document at `p`: absent, a directory, a binary file or text that does
      not parse all read as a failure. */
  function DocAt(files: Files, p: string): Option<Document> {
    if p in files && files[p].Text? && files[p].doc != Unparseable then Some(files[p].doc) else None
  }

  function ConfigAt(files: Files, p: string): Option<Config> {
    match DocAt(files, p)
    case Some(ConfigDoc(c)) => Some(c)
    case _ => None
  }

  function ProfileAt(files: Files, p: string): Option<Profile> {
    match DocAt(files, p)
    case Some(ProfileDoc(pr)) => Some(pr)
    case _ => None
  }

  function HistoryAt(files: Files, p: string): Option<History> {
    match DocAt(files, p)
    case Some(HistoryDoc(h)) => Some(h)
    case _ => None
  }

  function ActiveFastAt(files: Files, p: string): Option<ActiveFast> {
    match DocAt(files, p)
    case Some(ActiveFastDoc(a)) => Some(a)
    case _ => None
  }

  // ── Writing ────────────────────────────────────────────────────────────

  /** `fs.writeFile` succeeds unless the path is write-protected or is a directory. */
  predicate Writable(files: Files, unwritable: set<string>, p: string) {
    p !in unwritable && !(p in files && files[p].Dir?)
  }

  /** `fs.mkdir(p, { recursive: true })` succeeds on an existing directory, and creates
      one where nothing is and the path is not write-protected. */
  predicate CanMkdir(files: Files, unwritable: set<string>, p: string) {
    if p in files then files[p].Dir? else p !in unwritable
  }

  function WithDir(files: Files, p: string): Files {
    if p in files then files else files[p := Dir]
  }

  /** `p` holds the same thing (or is absent) in both maps. */
  predicate SameAt(f: Files, g: Files, p: string) {
    (p in f <==> p in g) && (p in f ==> f[p] == g[p])
  }

  // ── Images ─────────────────────────────────────────────────────────────

  /** `path.extname(p)`: from the last dot of the last path segment, unless that dot
      opens the segment. */
  function ExtName(p: string): (e: string)
    ensures e == "" || e[0] == '.'
  {
    var base := p[LastIndexOf(p, '/') + 1..];
    var dot := LastIndexOf(base, '.');
    if dot <= 0 then "" else base[dot..]
  }

  function MimeOfExtension(ext: string): (m: string)
    ensures m == "image/jpeg" <==> ext == "jpg" || ext == "jpeg"
    ensures m == "image/webp" <==> ext == "webp"
    ensures m == "image/gif" <==> ext == "gif"
    ensures m == "image/png" <==> ext != "jpg" && ext != "jpeg" && ext != "webp" && ext != "gif"
  {
    if ext == "jpg" || ext == "jpeg" then "image/jpeg"
    else if ext == "png" then "image/png"
    else if ext == "webp" then "image/webp"
    else if ext == "gif" then "image/gif"
    else "image/png"
  }

  /** `getMime`: the image type named by the lower-cased extension, PNG by default. */
  function GetMime(p: string): string {
    var e := ExtName(p);
    MimeOfExtension(ToLowerAscii(if e == "" then "" else e[1..]))
  }

  lemma LastIndexOfAt(s: string, c: char, i: nat)
    requires i < |s| && s[i] == c
    requires forall j :: i < j < |s| ==> s[j] != c
    ensures LastIndexOf(s, c) == i
  {
  }

  /** `path.extname` of `dir/stem.ext` is `.ext` when neither part holds a separator
      and `ext` holds no dot. */
  lemma ExtNameOfFileName(dir: string, stem: string, ext: string)
    requires stem != [] && '/' !in stem
    requires '/' !in ext && '.' !in ext
    ensures ExtName(Join(dir, stem + "." + ext)) == "." + ext
  {
    var name := stem + "." + ext;
    var p := Join(dir, name);
    assert p == dir + "/" + name;
    forall j | |dir| < j < |p| ensures p[j] != '/' {
      assert p[j] == name[j - |dir| - 1];
      assert name[j - |dir| - 1] in name;
    }
    LastIndexOfAt(p, '/', |dir|);
    assert p[|dir| + 1..] == name;
    forall j | |stem| < j < |name| ensures name[j] != '.' {
      assert name[j] == ext[j - |stem| - 1];
    }
    LastIndexOfAt(name, '.', |stem|);
    assert name[|stem|..] == "." + ext;
  }

  /** For a file named `stem.ext` in any directory, the type depends on the lower-cased
      `ext` alone. */
  lemma GetMimeOfFileName(dir: string, stem: string, ext: string)
    requires stem != [] && '/' !in stem
    requires '/' !in ext && '.' !in ext
    ensures GetMime(Join(dir, stem + "." + ext)) == MimeOfExtension(ToLowerAscii(ext))
  {
    ExtNameOfFileName(dir, stem, ext);
    assert ("." + ext)[1..] == ext;
  }

  const ImagePrefix := "data:image/"
  const Base64Marker := ";base64,"

  /** `\w` */
  predicate IsWordChar(c: char) {
    'a' <= c <= 'z' || 'A' <= c <= 'Z' || '0' <= c <= '9' || c == '_'
  }

  /** The characters `.` does not match. */
  predicate IsLineTerminator(c: char) {
    c == '\n' || c == '\r' || c == '\U{2028}' || c == '\U{2029}'
  }

  predicate ValidSubtype(s: string) {
    s != [] && forall i :: 0 <= i < |s| ==> IsWordChar(s[i])
  }

  predicate ValidPayload(s: string) {
    s != [] && forall i :: 0 <= i < |s| ==> !IsLineTerminator(s[i])
  }

  function ImageDataUri(subtype: string, payload: string): string {
    ImagePrefix + subtype + Base64Marker + payload
  }

  function WordRun(s: string): (k: nat)
    ensures k <= |s|
    ensures forall i :: 0 <= i < k ==> IsWordChar(s[i])
    ensures k < |s| ==> !IsWordChar(s[k])
  {
    if s != [] && IsWordChar(s[0]) then 1 + WordRun(s[1..]) else 0
  }

  /** `s.match(/^data:image\/(\w+);base64,(.+)$/)`, giving the two captured groups. */
  function MatchImageDataUri(s: string): (r: Option<(string, string)>)
    ensures r.Some? ==> ValidSubtype(r.value.0) && ValidPayload(r.value.1)
    ensures r.Some? ==> s == ImageDataUri(r.value.0, r.value.1)
  {
    if !StartsWith(s, ImagePrefix) then None
    else
      var rest := s[|ImagePrefix|..];
      var k := WordRun(rest);
      var tail := rest[k..];
      if k == 0 || !StartsWith(tail, Base64Marker) then None
      else
        var payload := tail[|Base64Marker|..];
        if ValidPayload(payload) then
          assert s == ImagePrefix + rest && rest == rest[..k] + tail && tail == Base64Marker + payload;
          Some((rest[..k], payload))
        else None
  }

  /** Every well-formed image data URI matches, with exactly its own subtype and payload. */
  lemma MatchImageDataUriComplete(subtype: string, payload: string)
    requires ValidSubtype(subtype) && ValidPayload(payload)
    ensures MatchImageDataUri(ImageDataUri(subtype, payload)) == Some((subtype, payload))
  {
    var s := ImageDataUri(subtype, payload);
    assert s[..|ImagePrefix|] == ImagePrefix;
    var rest := s[|ImagePrefix|..];
    assert rest == subtype + Base64Marker + payload;
    assert forall i :: 0 <= i < |subtype| ==> rest[i] == subtype[i];
    assert rest[|subtype|] == ';';
    var k := WordRun(rest);
    assert k == |subtype|;
    assert rest[k..] == Base64Marker + payload;
    assert rest[..k] == subtype;
  }

  /** `fileToDataURI`: a binary file's bytes re-encoded with the type its name implies;
      `null` when the path is missing or a directory. A text file is held as its parsed
      document rather than as bytes, so it gets `null` here too, where the program would
      encode its bytes. */
  function FileToDataUri(files: Files, p: string): Option<string> {
    if p in files && files[p].Blob? then
      Some("data:" + GetMime(p) + Base64Marker + files[p].base64)
    else None
  }

  /** A binary file typed `image/<subtype>` re-encodes as the image data URI of its bytes. */
  lemma BlobDataUri(files: Files, p: string, subtype: string, payload: string)
    requires p in files && files[p] == Blob(payload)
    requires GetMime(p) == "image/" + subtype
    ensures FileToDataUri(files, p) == Some(ImageDataUri(subtype, payload))
  {
    MimeDataUri(subtype, payload);
  }

  lemma MimeDataUri(subtype: string, payload: string)
    ensures "data:" + ("image/" + subtype) + Base64Marker + payload == ImageDataUri(subtype, payload)
  {
    assert "data:" + ("image/" + subtype) == ImagePrefix + subtype;
  }

  /** What `fileToDataURI` gives is always a data URI. */
  lemma FileToDataUriIsDataUri(files: Files, p: string)
    ensures FileToDataUri(files, p).Some? ==> StartsWith(FileToDataUri(files, p).value, "data:")
  {
    if FileToDataUri(files, p).Some? {
      DataUriHasScheme(GetMime(p), files[p].base64);
    }
  }

  lemma DataUriHasScheme(mime: string, payload: string)
    ensures StartsWith("data:" + mime + Base64Marker + payload, "data:")
  {
    var u := "data:" + mime + Base64Marker + payload;
    assert u == "data:" + (mime + Base64Marker + payload);
    assert u[..5] == "data:";
  }
}
