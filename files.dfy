/** Photo storage on disk (`FileDataSource`): a single shared instance, an upload
    directory holding files by name, a whitelist of image extensions, public URLs under
    `/fotos/`, and deletion by URL or by name. The directory is the set of names it holds. */
module Files {
  import opened Wrappers
  import opened Text
  import opened Url

  /** The extensions accepted for upload. */
  const AllowedExtensions: seq<string> := ["jpg", "jpeg", "png"]

  /** `name.split(".").pop()?.toLowerCase()`: the text after the last dot, lower-cased;
      the whole name when it has no dot. */
  function Extension(name: string): (ext: string)
    ensures '.' !in ext && |ext| <= |name|
    ensures '.' !in name ==> ext == Lower(name)
  {
    var last := AfterLast(name, '.');
    assert |last| < |name| ==> '.' in name by {
      if |last| < |name| {
        assert name[|name| - |last| - 1] == '.';
      }
    }
    assert forall i :: 0 <= i < |last| ==> LowerChar(last[i]) != '.';
    Lower(last)
  }

  predicate ExtensionAllowed(name: string) {
    Extension(name) in AllowedExtensions
  }

  /** The extension of `base.ext` is `ext` lower-cased, whatever `base` holds. */
  lemma ExtensionOfDotted(base: string, ext: string)
    requires '.' !in ext
    ensures Extension(base + "." + ext) == Lower(ext)
  {
    AfterLastOfJoin(base, '.', ext);
  }

  /** The content type served for a stored file, by its extension. */
  function MimeType(filePath: string): (m: string)
    ensures m == "image/jpeg" <==> Extension(filePath) == "jpg" || Extension(filePath) == "jpeg"
    ensures m == "image/png" <==> Extension(filePath) == "png"
    ensures m == "application/octet-stream" <==> !ExtensionAllowed(filePath)
  {
    var ext := Extension(filePath);
    if ext == "jpg" || ext == "jpeg" then "image/jpeg"
    else if ext == "png" then "image/png"
    else "application/octet-stream"
  }

  /** Exactly the uploadable files are served with an image content type. */
  lemma ServedAsImageIffUploadable(filePath: string)
    ensures MimeType(filePath) != "application/octet-stream" <==> ExtensionAllowed(filePath)
  {
  }

  /** `Date.now() + "-" + Math.round(Math.random() * 1e9)`, from its two numbers. */
  function UniqueSuffix(now: nat, random: nat): (s: string)
    ensures '/' !in s
  {
    NatToString(now) + "-" + NatToString(random)
  }

  /** The stored file name: the unique suffix, a dash, and the uploaded name. */
  function StoredName(now: nat, random: nat, name: string): (f: string)
    ensures '/' !in name ==> '/' !in f
    ensures |f| > |name| && f[|f| - |name|..] == name
  {
    UniqueSuffix(now, random) + "-" + name
  }

  /** The last segment of a public URL is the stored name as the URL spells it: the
      name itself exactly when it is plain, its percent-encoding otherwise. */
  lemma PublicUrlNamesFile(host: string, filename: string)
    requires IsOrigin(host)
    ensures UrlBasename(PublicUrl(host, filename)) == Some(UrlName(filename))
    ensures UrlName(filename) == filename <==> UrlPlain(filename)
  {
    UrlBasenameOfPublicUrl(host, filename);
    UrlNameIdentity(filename);
  }

  /** `filePath.replace("/fotos/", "").replace(/^\/+/, "")`: the name tried first. */
  function CleanName(filePath: string): string {
    StripLeading(ReplaceFirst(filePath, "/fotos/", ""), '/')
  }

  /** A path starting with a non-slash and holding two adjacent slashes (a URL's `//`)
      keeps a slash after cleaning: the pattern `/fotos/` has no two adjacent slashes. */
  lemma CleanNameKeepsSlash(s: string, p: nat)
    requires 0 < p && p + 1 < |s| && s[p] == '/' && s[p + 1] == '/' && s[0] != '/'
    ensures '/' in CleanName(s)
  {
    var pat := "/fotos/";
    match IndexOf(s, pat)
    case None =>
      assert ReplaceFirst(s, pat, "") == s;
      assert s[p] in s;
    case Some(i) =>
      var t := s[..i] + s[i + 7..];
      assert ReplaceFirst(s, pat, "") == t;
      assert s[i..i + 7] == pat;
      PatternHasNoDoubleSlash(s, i);
      assert s[i] == '/';
      assert t[0] == s[0];
      if p < i {
        assert t[p] == s[p];
      } else if p >= i + 7 {
        assert t[p - 7] == s[p];
      } else if p == i + 6 {
        assert t[p + 1 - 7] == s[p + 1];
      }
  }

  lemma PatternHasNoDoubleSlash(s: string, i: nat)
    requires i + 7 <= |s| && s[i..i + 7] == "/fotos/"
    ensures forall q :: i <= q < i + 6 ==> s[q] != '/' || s[q + 1] != '/'
  {
    forall q | i <= q < i + 6 ensures s[q] != '/' || s[q + 1] != '/' {
      assert s[q] == s[i..i + 7][q - i] && s[q + 1] == s[i..i + 7][q + 1 - i];
    }
  }

  /** What `deleteFile(filePath)` removes: the cleaned name when the directory holds it;
      otherwise the last segment of the path read as a URL, as the parser spells it, when
      the directory holds that. */
  function DeleteTarget(stored: set<string>, filePath: string): (r: Option<string>)
    ensures r.Some? ==> r.value in stored
  {
    if CleanName(filePath) in stored then Some(CleanName(filePath))
    else match UrlBasename(filePath)
      case Some(b) => if b in stored then Some(b) else None
      case None => None
  }

  /** Deleting by the URL a save returned removes the file whose name is the URL's last
      segment, as the parser spells it, if the directory holds one. */
  lemma SaveThenDeleteByUrl(stored: set<string>, host: string, filename: string)
    requires IsOrigin(host)
    requires forall f :: f in stored ==> '/' !in f
    requires '/' !in filename
    ensures DeleteTarget(stored + {filename}, PublicUrl(host, filename)) ==
      if UrlName(filename) in stored + {filename} then Some(UrlName(filename)) else None
  {
    DeleteByPublicUrl(stored + {filename}, host, filename);
  }

  /** Deleting by a published URL, from any directory of plain file names, removes the
      URL's last segment if the directory holds it. */
  lemma DeleteByPublicUrl(stored: set<string>, host: string, filename: string)
    requires IsOrigin(host)
    requires forall f :: f in stored ==> '/' !in f
    ensures DeleteTarget(stored, PublicUrl(host, filename)) ==
      if UrlName(filename) in stored then Some(UrlName(filename)) else None
  {
    PublicUrlDeleteFacts(host, filename);
    DeleteTargetByBasename(stored, PublicUrl(host, filename), UrlName(filename));
  }

  /** A saved file whose name is plain is exactly what deleting by its URL removes. */
  lemma SaveThenDeletePlain(stored: set<string>, host: string, filename: string)
    requires IsOrigin(host)
    requires forall f :: f in stored ==> '/' !in f
    requires UrlPlain(filename)
    ensures DeleteTarget(stored + {filename}, PublicUrl(host, filename)) == Some(filename)
  {
    SaveThenDeleteByUrl(stored, host, filename);
    UrlNameIdentity(filename);
  }

  /** A path whose cleaned form keeps a slash is deleted, if at all, by its URL basename. */
  lemma DeleteTargetByBasename(stored: set<string>, url: string, b: string)
    requires forall f :: f in stored ==> '/' !in f
    requires '/' in CleanName(url) && UrlBasename(url) == Some(b)
    ensures DeleteTarget(stored, url) == if b in stored then Some(b) else None
  {
  }

  /** A photo uploaded under a name with a space, such as "a b.jpg", is published with
      "%20" in its URL, so deleting it by that URL finds no file. */
  lemma SpacedNameNotDeletedByUrl(host: string, f: string)
    requires IsOrigin(host) && '/' !in f && ' ' in f
    ensures DeleteTarget({f}, PublicUrl(host, f)) == None
  {
    DeleteByPublicUrl({f}, host, f);
    SpacedNotPlain(f);
    UrlNameIdentity(f);
  }

  lemma SpacedNotPlain(f: string)
    requires ' ' in f
    ensures !UrlPlain(f)
  {
    var i :| 0 <= i < |f| && f[i] == ' ';
    assert InSet(PathSet, f[i]);
  }

  /** Deleting by a published URL falls through to the URL's basename, which is the name
      as the parser spells it. */
  lemma PublicUrlDeleteFacts(host: string, filename: string)
    requires IsOrigin(host)
    ensures '/' in CleanName(PublicUrl(host, filename))
    ensures UrlBasename(PublicUrl(host, filename)) == Some(UrlName(filename))
  {
    PublicUrlCleanNameHasSlash(host, filename);
    PublicUrlNamesFile(host, filename);
  }

  lemma PublicUrlCleanNameHasSlash(host: string, filename: string)
    requires IsOrigin(host)
    ensures '/' in CleanName(PublicUrl(host, filename))
  {
    assert PublicUrl(host, filename) == host + ("/fotos/" + Tail(filename));
    OriginCleanNameHasSlash(host, "/fotos/" + Tail(filename));
  }

  /** Cleaning a URL that starts with an origin keeps a slash: that of the scheme's `//`. */
  lemma OriginCleanNameHasSlash(host: string, rest: string)
    requires IsOrigin(host)
    ensures '/' in CleanName(host + rest)
  {
    var url := host + rest;
    assert url[..|host|] == host;
    if OriginAfter(host, "http://") {
      assert host[..7] == "http://";
      assert host[5] == '/' && host[6] == '/' && host[0] == 'h';
      assert url[5] == '/' && url[6] == '/' && url[0] == 'h';
      CleanNameKeepsSlash(url, 5);
    } else {
      assert host[..8] == "https://";
      assert host[6] == '/' && host[7] == '/' && host[0] == 'h';
      assert url[6] == '/' && url[7] == '/' && url[0] == 'h';
      CleanNameKeepsSlash(url, 6);
    }
  }

  /** The names the files of `names` are stored under (those that can be written). */
  function Written(names: seq<string>, stamps: seq<(nat, nat)>): (r: set<string>)
    requires |stamps| == |names|
    ensures forall i :: 0 <= i < |names| && '/' !in names[i] ==> StoredName(stamps[i].0, stamps[i].1, names[i]) in r
    ensures forall f :: f in r ==> '/' !in f
  {
    if names == [] then {}
    else
      var n := |names| - 1;
      Written(names[..n], stamps[..n]) + (if '/' !in names[n] then {StoredName(stamps[n].0, stamps[n].1, names[n])} else {})
  }

  /** The URLs returned for `names`, in order. */
  function Urls(host: string, names: seq<string>, stamps: seq<(nat, nat)>): (r: seq<string>)
    requires |stamps| == |names|
    ensures |r| == |names|
    ensures forall i :: 0 <= i < |r| ==> r[i] == PublicUrl(host, StoredName(stamps[i].0, stamps[i].1, names[i]))
  {
    seq(|names|, i requires 0 <= i < |names| => PublicUrl(host, StoredName(stamps[i].0, stamps[i].1, names[i])))
  }

  /** Each returned URL reads back, in its last segment, as the stored name spelled for a
      URL; that is the name of the file now in the directory exactly when the uploaded name
      is plain. */
  lemma UrlsNameStoredFiles(host: string, names: seq<string>, stamps: seq<(nat, nat)>, i: nat)
    requires IsOrigin(host)
    requires |stamps| == |names| && i < |names| && '/' !in names[i]
    ensures var f := StoredName(stamps[i].0, stamps[i].1, names[i]);
      UrlBasename(Urls(host, names, stamps)[i]) == Some(UrlName(f)) &&
      (UrlName(f) == f <==> PathClean(names[i])) &&
      (PathClean(names[i]) ==> UrlName(f) in Written(names, stamps))
  {
    var f := StoredName(stamps[i].0, stamps[i].1, names[i]);
    PublicUrlNamesFile(host, f);
    StoredNamePlain(stamps[i].0, stamps[i].1, names[i]);
  }

  /** A stored name is plain exactly when the uploaded name is clean of characters the
      path encodes (the suffix is digits and dashes). */
  lemma StoredNamePlain(now: nat, random: nat, name: string)
    requires '/' !in name
    ensures UrlPlain(StoredName(now, random, name)) <==> PathClean(name)
  {
    var prefix := UniqueSuffix(now, random) + "-";
    var f := StoredName(now, random, name);
    assert f == prefix + name;
    SuffixPlain(now, random);
    assert forall i :: 0 <= i < |name| ==> name[i] == f[|prefix| + i];
    if PathClean(name) {
      PathCleanConcat(prefix, name);
    }
  }

  lemma SuffixPlain(now: nat, random: nat)
    ensures PathClean(UniqueSuffix(now, random) + "-")
  {
    var s := UniqueSuffix(now, random) + "-";
    assert s == NatToString(now) + "-" + NatToString(random) + "-";
    forall i | 0 <= i < |s| ensures !InSet(PathSet, s[i]) && s[i] != '\\' {
      assert IsDigit(s[i]) || s[i] == '-';
    }
  }

  /** Where the files go: the repository's `uploads/` in development, `/fotos` otherwise. */
  datatype UploadDir = DevelopmentUploads | FotosDir

  function UploadDirFor(environment: string): UploadDir {
    if environment == "development" then DevelopmentUploads else FotosDir
  }

  class FileDataSource {
    const uploadDir: UploadDir
    const hostUrl: string
    /** The names of the files in the upload directory. */
    var stored: set<string>

    ghost predicate Valid()
      reads this
    {
      IsOrigin(hostUrl) && forall f :: f in stored ==> '/' !in f
    }

    constructor(environment: string, hostUrl: string, stored: set<string>)
      requires IsOrigin(hostUrl) && forall f :: f in stored ==> '/' !in f
      ensures Valid()
      ensures uploadDir == UploadDirFor(environment) && this.hostUrl == hostUrl && this.stored == stored
    {
      this.uploadDir := UploadDirFor(environment);
      this.hostUrl := hostUrl;
      this.stored := stored;
    }

    /** `saveFile(foto)`: every failure, the 400 for a refused extension included, comes
        out as 500. A name holding a slash points into a directory that does not exist, so
        its write fails. */
    method SaveFile(name: string, now: nat, random: nat) returns (r: Result<string>)
      requires Valid()
      modifies this
      ensures Valid()
      ensures !ExtensionAllowed(name) || '/' in name ==> r == Err(InternalError) && stored == old(stored)
      ensures ExtensionAllowed(name) && '/' !in name ==>
        r == Ok(PublicUrl(hostUrl, StoredName(now, random, name))) &&
        stored == old(stored) + {StoredName(now, random, name)}
    {
      if !ExtensionAllowed(name) || '/' in name {
        return Err(InternalError);
      }
      var filename := StoredName(now, random, name);
      stored := stored + {filename};
      r := Ok(PublicUrl(hostUrl, filename));
    }

    /** `saveFiles(fotos)`: 400 before anything is written when some name has a refused
        extension; otherwise every file is written at once (each with its own suffix) and
        the URLs come back in order, or 500 when some write failed, the others having been
        written all the same. */
    method SaveFiles(names: seq<string>, stamps: seq<(nat, nat)>) returns (r: Result<seq<string>>)
      requires Valid() && |stamps| == |names|
      modifies this
      ensures Valid()
      ensures (exists i :: 0 <= i < |names| && !ExtensionAllowed(names[i])) ==>
        r == Err(BadRequest) && stored == old(stored)
      ensures (forall i :: 0 <= i < |names| ==> ExtensionAllowed(names[i])) ==>
        stored == old(stored) + Written(names, stamps) &&
        if AnySlash(names) then r == Err(InternalError) else r == Ok(Urls(hostUrl, names, stamps))
    {
      var bad := FirstRefused(names);
      if bad.Some? {
        return Err(BadRequest);
      }
      stored := stored + Written(names, stamps);
      if AnySlash(names) {
        return Err(InternalError);
      }
      r := Ok(Urls(hostUrl, names, stamps));
    }

    /** `deleteFile(filePath)`: the cleaned name is tried first, then the last segment of
        the path read as a URL, percent-encoded as the parser leaves it; 500 when neither
        names a file in the directory. */
    method DeleteFile(filePath: string) returns (r: Result<()>)
      requires Valid()
      modifies this
      ensures Valid()
      ensures match DeleteTarget(old(stored), filePath)
        case Some(f) => r.Ok? && stored == old(stored) - {f}
        case None => r == Err(InternalError) && stored == old(stored)
    {
      var target := DeleteTarget(stored, filePath);
      if target.None? {
        return Err(InternalError);
      }
      stored := stored - {target.value};
      r := Ok(());
    }

    /** `getFileFromSource(filePath)`: the content type of a stored file. Reading a missing
        file throws a plain error (500) before the 404 test is reached. */
    function GetFileFromSource(filePath: string): (r: Result<string>)
      reads this
      ensures r.Ok? <==> filePath in stored
      ensures r.Ok? ==> r.value == MimeType(filePath)
      ensures r.Err? ==> r.status == InternalError
    {
      if filePath in stored then Ok(MimeType(filePath)) else Err(InternalError)
    }
  }

  /** The first name with a refused extension (the validation loop of `saveFiles`). */
  method FirstRefused(names: seq<string>) returns (r: Option<nat>)
    ensures r.None? <==> forall i :: 0 <= i < |names| ==> ExtensionAllowed(names[i])
    ensures r.Some? ==> r.value < |names| && !ExtensionAllowed(names[r.value])
  {
    var i := 0;
    while i < |names|
      invariant 0 <= i <= |names|
      invariant forall j :: 0 <= j < i ==> ExtensionAllowed(names[j])
    {
      if !ExtensionAllowed(names[i]) {
        return Some(i);
      }
      i := i + 1;
    }
    return None;
  }

  /** Some name holds a slash (its write fails). */
  predicate AnySlash(names: seq<string>) {
    exists i :: 0 <= i < |names| && '/' in names[i]
  }

  /** `FileDataSource.getInstance(environment)`: the instance made by the first call,
      whatever the later calls pass. */
  class FileSources {
    var instance: Option<FileDataSource>

    constructor()
      ensures instance.None?
    {
      instance := None;
    }

    /** `existing` is what the upload directory holds when the instance is made. */
    method GetInstance(environment: string, hostUrl: string, existing: set<string>) returns (s: FileDataSource)
      requires IsOrigin(hostUrl) && forall f :: f in existing ==> '/' !in f
      requires instance.Some? ==> instance.value.Valid()
      modifies this
      ensures s.Valid()
      ensures old(instance).Some? ==> s == old(instance).value && instance == old(instance)
      ensures old(instance).None? ==>
        fresh(s) && instance == Some(s) && s.uploadDir == UploadDirFor(environment) && s.stored == existing
    {
      if instance.None? {
        var created := new FileDataSource(environment, hostUrl, existing);
        instance := Some(created);
      }
      s := instance.value;
    }
  }
}
