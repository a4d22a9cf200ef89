/** The upload filter of `multer.js`: an image is accepted only when the
    lower-cased extension of its original file name is `.jpg`, `.jpeg`
    or `.png`. The extension is taken the way Node's POSIX `path.extname`
    takes it. */
module Upload {
  import opened Shop
  import opened Text

  /** The index of the last occurrence of `c` in `s`. */
  function LastIndexOf(s: string, c: char): (r: Option<nat>)
    ensures r.Some? ==> r.value < |s| && s[r.value] == c && forall j :: r.value < j < |s| ==> s[j] != c
    ensures r.None? ==> forall j :: 0 <= j < |s| ==> s[j] != c
  {
    if |s| == 0 then None
    else if s[|s| - 1] == c then Some(|s| - 1)
    else LastIndexOf(s[..|s| - 1], c)
  }

  /** The path without its trailing slashes. */
  function StripTrailingSlashes(path: string): (r: string)
    ensures |r| <= |path| && r == path[..|r|]
    ensures r == "" || r[|r| - 1] != '/'
    ensures forall j :: |r| <= j < |path| ==> path[j] == '/'
  {
    if |path| > 0 && path[|path| - 1] == '/' then StripTrailingSlashes(path[..|path| - 1]) else path
  }

  /** The last path component, trailing slashes ignored. */
  function BaseName(path: string): (b: string)
    ensures forall j :: 0 <= j < |b| ==> b[j] != '/'
  {
    var stripped := StripTrailingSlashes(path);
    match LastIndexOf(stripped, '/')
    case None => stripped
    case Some(k) => stripped[k + 1..]
  }

  /** `path.extname`: from the last dot of the base name to its end. There
      is no extension when the base name has no dot, when its only dot
      opens it (a dot file such as `.png`), or when it is `..`. */
  function ExtName(path: string): (e: string)
    ensures e == "" <==>
      var base := BaseName(path);
      base == ".." || forall k :: 0 < k < |base| ==> base[k] != '.'
    ensures e != "" ==>
      var base := BaseName(path);
      && e[0] == '.'
      && (forall j :: 1 <= j < |e| ==> e[j] != '.')
      && |e| < |base| && base[|base| - |e|..] == e
  {
    var base := BaseName(path);
    match LastIndexOf(base, '.')
    case None => ""
    case Some(k) => if k == 0 || base == ".." then "" else base[k..]
  }

  const AllowedExtensions: set<string> := {".jpg", ".jpeg", ".png"}

  const RejectMessage := "Only images are allowed (jpg, jpeg, png)"

  /** The single invocation of multer's callback: `cb(null, true)` on
      acceptance, `cb(new Error(message), false)` on rejection. */
  datatype Callback = Callback(error: Option<string>, accepted: bool)

  /** The file filter. It calls back exactly once, and accepts exactly the
      names whose lower-cased extension is on the whitelist. */
  function FileFilter(originalName: string): (cb: Callback)
    ensures cb.accepted <==> ToLower(ExtName(originalName)) in AllowedExtensions
    ensures cb.accepted ==> cb.error.None?
    ensures !cb.accepted ==> cb.error == Some(RejectMessage)
  {
    var ext := ToLower(ExtName(originalName));
    assert ext in AllowedExtensions <==> ext == ".jpg" || ext == ".jpeg" || ext == ".png";
    if ext != ".jpg" && ext != ".jpeg" && ext != ".png" then Callback(Some(RejectMessage), false)
    else Callback(None, true)
  }

  /** The filter is case-insensitive: it accepts a name exactly when its
      extension equals one of the three whitelisted extensions, letter case
      ignored. */
  lemma FileFilterIgnoresCase(originalName: string)
    ensures FileFilter(originalName).accepted <==>
      var ext := ExtName(originalName);
      EqualIgnoringCase(ext, ".jpg") || EqualIgnoringCase(ext, ".jpeg") || EqualIgnoringCase(ext, ".png")
  {
    var ext := ExtName(originalName);
    assert ToLower(".jpg") == ".jpg";
    assert ToLower(".jpeg") == ".jpeg";
    assert ToLower(".png") == ".png";
    ToLowerEqualIff(ext, ".jpg");
    ToLowerEqualIff(ext, ".jpeg");
    ToLowerEqualIff(ext, ".png");
  }

  /** A name without an extension is always rejected. */
  lemma NoExtensionRejected(originalName: string)
    requires ExtName(originalName) == ""
    ensures FileFilter(originalName) == Callback(Some(RejectMessage), false)
  {
    assert ToLower("") == "";
  }

  /** A name with no slash is its own base name. */
  lemma BaseNameNoSlash(name: string)
    requires forall j :: 0 <= j < |name| ==> name[j] != '/'
    ensures BaseName(name) == name
  {
    if |name| > 0 {
      assert name[|name| - 1] != '/';
    }
  }

  /** The contract of `LastIndexOf` determines its result. */
  lemma LastIndexOfIs(s: string, c: char, k: nat)
    requires k < |s| && s[k] == c && forall j :: k < j < |s| ==> s[j] != c
    ensures LastIndexOf(s, c) == Some(k)
  {
  }

  /** An upper-case extension passes. */
  lemma UpperCaseJpgAccepted()
    ensures FileFilter("photo.JPG").accepted
  {
    BaseNameNoSlash("photo.JPG");
    LastIndexOfIs("photo.JPG", '.', 5);
    assert ExtName("photo.JPG") == ".JPG";
    assert ToLower(".JPG") == ".jpg";
  }

  /** A dot file has no extension and is refused. */
  lemma DotFileRejected()
    ensures !FileFilter(".png").accepted
  {
    BaseNameNoSlash(".png");
    LastIndexOfIs(".png", '.', 0);
    NoExtensionRejected(".png");
  }

  /** Only the last extension counts. */
  lemma LastExtensionCounts()
    ensures !FileFilter("photo.png.exe").accepted
  {
    BaseNameNoSlash("photo.png.exe");
    LastIndexOfIs("photo.png.exe", '.', 9);
    assert ExtName("photo.png.exe") == ".exe";
    assert ToLower(".exe") == ".exe";
  }
}
