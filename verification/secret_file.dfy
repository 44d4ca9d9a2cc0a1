/**
 * The private file route (app/api/secret-images/file/route.ts): for an authenticated
 * session, the file of private/secret named by the `filename` query parameter, reduced to
 * its basename, with a content type taken from its extension. The disk is a map from paths
 * (segments below the working directory) to what lies there.
 */
module SecretFile {
  import opened Wrappers
  import opened Strings
  import opened GameTypes
  import opened FileNames
  import Images
  import SecretImages

  /** What fs.existsSync finds at a path: a file with its bytes, or a directory. */
  datatype Node = File(content: seq<bv8>) | Directory

  type Disk = map<seq<string>, Node>

  const SecretDir: seq<string> := ["private", "secret"]

  datatype FileReply =
    | Text(status: nat, body: string)
    | Served(content: seq<bv8>, contentType: string, cacheControl: string)

  const CacheControl := "private, max-age=3600"
  const DefaultContentType := "application/octet-stream"

  const ContentTypes: map<string, string> := map[
    ".jpg" := "image/jpeg",
    ".jpeg" := "image/jpeg",
    ".png" := "image/png",
    ".gif" := "image/gif",
    ".webp" := "image/webp",
    ".mp4" := "video/mp4",
    ".webm" := "video/webm",
    ".mov" := "video/quicktime"
  ]

  /** `contentTypeMap[ext.toLowerCase()] || 'application/octet-stream'`. */
  function ContentType(ext: string): (t: string)
    ensures ToLower(ext) in ContentTypes ==> t == ContentTypes[ToLower(ext)]
    ensures ToLower(ext) !in ContentTypes ==> t == DefaultContentType
    ensures t != ""
  {
    var key := ToLower(ext);
    if key in ContentTypes then ContentTypes[key] else DefaultContentType
  }

  /**
   * path.join(process.cwd(), 'private', 'secret', name) for a name without '/': an empty
   * name or "." leaves the secret directory itself, ".." normalises to its parent.
   */
  function Resolve(name: string): (p: seq<string>)
    requires '/' !in name
    ensures p == SecretDir || p == ["private"] || (|p| == 3 && p[..2] == SecretDir && p[2] == name)
    ensures |p| == 3 <==> name != "" && name != "." && name != ".."
  {
    if name == "" || name == "." then SecretDir
    else if name == ".." then ["private"]
    else SecretDir + [name]
  }

  /**
   * GET. `authenticated` is the session's isAuthenticated flag, `filename` the query
   * parameter. Reading a directory throws, which the catch block answers with a 500.
   */
  function Serve(authenticated: Option<bool>, filename: Option<string>, disk: Disk): (r: FileReply)
    ensures !OrFalse(authenticated) ==> r == Text(401, "Unauthorized")
    ensures OrFalse(authenticated) && !Truthy(filename) ==> r == Text(400, "Filename required")
    ensures OrFalse(authenticated) && Truthy(filename) && Resolve(BaseName(filename.value)) !in disk
            ==> r == Text(404, "File not found")
    ensures OrFalse(authenticated) && Truthy(filename) && Resolve(BaseName(filename.value)) in disk
            && disk[Resolve(BaseName(filename.value))].Directory?
            ==> r == Text(500, "Internal server error")
    ensures (&& OrFalse(authenticated) && Truthy(filename) && Resolve(BaseName(filename.value)) in disk
             && disk[Resolve(BaseName(filename.value))].File?)
            ==> r.Served?
    ensures r.Served? ==> && OrFalse(authenticated) && Truthy(filename)
                          && var name := BaseName(filename.value);
                          && Resolve(name) in disk && disk[Resolve(name)] == File(r.content)
                          && r.contentType == ContentType(ExtName(name)) && r.cacheControl == CacheControl
  {
    if !OrFalse(authenticated) then Text(401, "Unauthorized")
    else if !Truthy(filename) then Text(400, "Filename required")
    else
      var name := BaseName(filename.value);
      var path := Resolve(name);
      if path !in disk then Text(404, "File not found")
      else
        match disk[path]
        case Directory => Text(500, "Internal server error")
        case File(content) => Served(content, ContentType(ExtName(name)), CacheControl)
  }

  /** The disk as the application lays it out: private and private/secret, when present, are directories. */
  predicate Laid(disk: Disk) {
    (SecretDir in disk ==> disk[SecretDir].Directory?) && (["private"] in disk ==> disk[["private"]].Directory?)
  }

  /**
   * Directory traversal is closed: whatever the filename, a served file is a direct child
   * of private/secret, named by the filename's last segment.
   */
  lemma ServedFileInsideSecret(authenticated: Option<bool>, filename: Option<string>, disk: Disk)
    requires Laid(disk)
    ensures var r := Serve(authenticated, filename, disk);
      r.Served? ==> exists name :: && '/' !in name && name != "" && name != "." && name != ".."
                                   && SecretDir + [name] in disk && disk[SecretDir + [name]] == File(r.content)
  {
    var r := Serve(authenticated, filename, disk);
    if r.Served? {
      var name := BaseName(filename.value);
      assert Resolve(name) == SecretDir + [name];
    }
  }

  /** The last index of `c` in `a + [c] + b` is |a| when `c` does not occur in `b`. */
  lemma {:induction false} LastIndexOfSplit(a: string, c: char, b: string)
    requires c !in b
    ensures LastIndexOf(a + [c] + b, c) == |a|
    decreases |b|
  {
    var s := a + [c] + b;
    if b != [] {
      assert s[..|s| - 1] == a + [c] + b[..|b| - 1];
      assert b[|b| - 1] in b;
      LastIndexOfSplit(a, c, b[..|b| - 1]);
    }
  }

  /** Any directory part in front of a name is dropped: basename(dir + "/" + name) is name. */
  lemma BaseNameDropsDirectories(dir: string, name: string)
    requires name != "" && '/' !in name
    ensures BaseName(dir + "/" + name) == name
  {
    var p := dir + "/" + name;
    assert p[|p| - 1] == name[|name| - 1];
    assert StripTrailingSlashes(p) == p;
    LastIndexOfSplit(dir, '/', name);
    assert p[|dir| + 1..] == name;
  }

  /** A traversal attempt such as "../../etc/passwd" reads "passwd" inside private/secret. */
  lemma TraversalReadsInsideSecret(dir: string, name: string, disk: Disk)
    requires name != "" && '/' !in name
    ensures Serve(Some(true), Some(dir + "/" + name), disk) == Serve(Some(true), Some(name), disk)
  {
    BaseNameDropsDirectories(dir, name);
    BaseNameOfPlainName(name);
  }

  /** The extension's case does not matter. */
  lemma ContentTypeIgnoresCase(ext: string)
    ensures ContentType(ToLower(ext)) == ContentType(ext)
  {
    ToLowerIdempotent(ext);
  }

  /** .jpg and .jpeg, in any case, are both JPEG. */
  lemma JpegAliases(ext: string)
    requires ToLower(ext) == ".jpg" || ToLower(ext) == ".jpeg"
    ensures ContentType(ext) == "image/jpeg"
  {
  }

  const ImageTypes := {"image/jpeg", "image/png", "image/gif", "image/webp"}

  /** Every extension the listing routes keep is served with an image content type. */
  lemma ImageFilesServedAsImages(f: string)
    requires IsImageFile(f)
    ensures ContentType(ExtName(f)) in ImageTypes
  {
    ImageExtensionType(ToLower(ExtName(f)));
  }

  lemma ImageExtensionType(e: string)
    requires e in ImageExtensions
    ensures e in ContentTypes && ContentTypes[e] in ImageTypes
  {
  }

  /** A listed image file is served from its place in private/secret with an image type. */
  lemma ImageFileServed(f: string, disk: Disk)
    requires '/' !in f && IsImageFile(f)
    requires SecretDir + [f] in disk && disk[SecretDir + [f]].File?
    ensures var r := Serve(Some(true), Some(f), disk);
      r.Served? && File(r.content) == disk[SecretDir + [f]] && r.contentType in ImageTypes
  {
    ImageExtensionLength(ToLower(ExtName(f)));
    BaseNameOfPlainName(f);
    assert |f| >= 4;
    assert Resolve(f) == SecretDir + [f];
    ImageFilesServedAsImages(f);
  }

  /**
   * The link the secret listing gives each image leads back to it: decoding the query
   * parameter of its src (decode inverting encode, as decodeURIComponent inverts
   * encodeURIComponent) and serving it returns that file's bytes with an image type.
   * Directory entries never contain '/'.
   */
  lemma ListedLinkServesFile(names: seq<string>, disk: Disk, encode: string -> string,
                             decode: string -> string, i: nat)
    requires forall s :: decode(encode(s)) == s
    requires forall f :: f in names ==> '/' !in f && SecretDir + [f] in disk && disk[SecretDir + [f]].File?
    requires SecretImages.List(Some(true), Images.Files(names), encode).Listed?
    requires i < |SecretImages.List(Some(true), Images.Files(names), encode).images|
    ensures var e := SecretImages.List(Some(true), Images.Files(names), encode).images[i];
      var param := decode(e.src[|SecretImages.FileRoute|..]);
      var r := Serve(Some(true), Some(param), disk);
      && r.Served? && File(r.content) == disk[SecretDir + [e.alt]]
      && r.contentType in ImageTypes
  {
    var kept := ImageFiles(names);
    var f := kept[i];
    assert f in kept;
    var e := SecretImages.List(Some(true), Images.Files(names), encode).images[i];
    assert e.alt == f;
    assert e.src[|SecretImages.FileRoute|..] == encode(f);
    assert decode(e.src[|SecretImages.FileRoute|..]) == f;
    ImageFileServed(f, disk);
  }
}
