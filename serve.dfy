/** The static server of the built app: request-path resolution with the
    single-page-app fallback to index.html, and the Content-Type table. The file
    system is a set of files and a set of directories; reading a file can fail. */
module Serve {
  import opened Wrappers
  import opened Text

  type Bytes = seq<bv8>

  datatype FileSystem = FileSystem(files: set<string>, dirs: set<string>)

  predicate Exists(fs: FileSystem, path: string) {
    path in fs.files || path in fs.dirs
  }

  /** `path.join` as concatenation with one separator; normalisation of "." and ".."
      segments is not modelled. */
  function Join(base: string, rel: string): string {
    if |rel| > 0 && rel[0] == '/' then base + rel else base + "/" + rel
  }

  function TrimTrailingSlashes(s: string): (r: string)
    ensures |r| <= |s| && r == s[..|r|]
    ensures r == [] || r[|r| - 1] != '/'
  {
    if s != [] && s[|s| - 1] == '/' then TrimTrailingSlashes(s[..|s| - 1]) else s
  }

  /** `t` is an end of `s`. */
  predicate EndsWith(s: string, t: string) {
    |t| <= |s| && t == s[|s| - |t|..]
  }

  lemma EndsWithTransitive(a: string, b: string, c: string)
    requires EndsWith(a, b) && EndsWith(b, c)
    ensures EndsWith(a, c)
  {
    assert forall k :: 0 <= k < |c| ==> c[k] == a[|a| - |c| + k];
  }

  /** The last path segment is "..". */
  predicate IsDotDot(base: string) {
    |base| == 2 && base[0] == '.' && base[1] == '.'
  }

  /** The extension of one path segment: its text from the last "." on; "" when it
      has no ".", when that "." is its first character (".bashrc"), or for "..". */
  function SegmentExt(base: string): (ext: string)
    ensures ext == [] || ext[0] == '.'
    ensures forall k :: 0 < k < |ext| ==> ext[k] != '.'
    ensures EndsWith(base, ext)
    ensures ext == [] <==> IsDotDot(base) || forall k :: 0 < k < |base| ==> base[k] != '.'
  {
    var after := AfterLast(base, '.');
    if |after| == |base| || |after| == |base| - 1 || IsDotDot(base) then
      assert forall k :: 0 < k < |base| && !IsDotDot(base) ==> base[k] == after[k - (|base| - |after|)];
      ""
    else
      assert base[|base| - |after| - 1..] == ['.'] + after;
      assert base[|base| - |after| - 1] == '.';
      ['.'] + after
  }

  lemma CharNotInSuffix(s: string, t: string, c: char)
    requires c !in s && EndsWith(s, t)
    ensures c !in t
  {
  }

  /** The last path segment, trailing slashes ignored. */
  function LastSegment(path: string): (base: string)
    ensures '/' !in base
    ensures EndsWith(TrimTrailingSlashes(path), base)
    ensures var t := TrimTrailingSlashes(path); |base| == |t| || t[|t| - |base| - 1] == '/'
  {
    AfterLast(TrimTrailingSlashes(path), '/')
  }

  /** `path.extname` (POSIX): the extension of the last path segment. */
  function ExtName(path: string): (ext: string)
    ensures ext == [] || ext[0] == '.'
    ensures forall k :: 0 < k < |ext| ==> ext[k] != '.'
    ensures var base := LastSegment(path);
      && EndsWith(base, ext)
      && (ext == [] <==> IsDotDot(base) || forall k :: 0 < k < |base| ==> base[k] != '.')
  {
    SegmentExt(LastSegment(path))
  }

  /** The extension lies within the last path segment. */
  lemma ExtNameHasNoSlash(path: string)
    ensures '/' !in ExtName(path)
  {
    var base := LastSegment(path);
    CharNotInSuffix(base, SegmentExt(base), '/');
  }

  /** The extension is an end of the path, trailing slashes aside. */
  lemma ExtNameIsSuffix(path: string)
    ensures EndsWith(TrimTrailingSlashes(path), ExtName(path))
  {
    EndsWithTransitive(TrimTrailingSlashes(path), LastSegment(path), ExtName(path));
  }

  /** The Content-Type table. */
  const MimeTypes: map<string, string> := map[
    ".html" := "text/html", ".js" := "text/javascript", ".css" := "text/css",
    ".json" := "application/json", ".png" := "image/png", ".jpg" := "image/jpg",
    ".gif" := "image/gif", ".svg" := "image/svg+xml", ".ico" := "image/x-icon",
    ".webmanifest" := "application/manifest+json", ".woff" := "font/woff", ".woff2" := "font/woff2"]

  /** The table entry for exactly this extension, or `application/octet-stream`. */
  function ContentType(ext: string): (t: string)
    ensures ext in MimeTypes ==> t == MimeTypes[ext]
    ensures ext !in MimeTypes ==> t == "application/octet-stream"
  {
    if ext in MimeTypes then MimeTypes[ext] else "application/octet-stream"
  }

  /** The file the request names: "/" stands for index.html. */
  function Requested(url: string): string {
    if url == "/" then "index.html" else url
  }

  /** Where the handler ends up looking: the requested path, or index.html when it does
      not exist, and then a directory's own index.html. */
  function ResolvedPath(fs: FileSystem, dist: string, url: string): string {
    var requested := Join(dist, Requested(url));
    var found := if Exists(fs, requested) then requested else Join(dist, "index.html");
    if Exists(fs, found) && found in fs.dirs then Join(found, "index.html") else found
  }

  datatype Body = TextBody(text: string) | FileBody(bytes: Bytes)

  datatype Response = Response(status: nat, contentType: Option<string>, body: Body)

  /** The request handler. `read` is `readFileSync`, `None` when it throws. */
  method Handle(fs: FileSystem, dist: string, url: string, read: string -> Option<Bytes>)
    returns (res: Response, filePath: string)
    ensures filePath == ResolvedPath(fs, dist, url)
    ensures !Exists(fs, filePath) ==> res == Response(404, None, TextBody("404 Not Found"))
    ensures Exists(fs, filePath) && read(filePath).None? ==>
      res == Response(500, None, TextBody("500 Internal Server Error"))
    ensures Exists(fs, filePath) && read(filePath).Some? ==>
      res == Response(200, Some(ContentType(ExtName(filePath))), FileBody(read(filePath).value))
  {
    filePath := Join(dist, if url == "/" then "index.html" else url);
    if !Exists(fs, filePath) {
      filePath := Join(dist, "index.html");
    }
    if Exists(fs, filePath) && filePath in fs.dirs {
      filePath := Join(filePath, "index.html");
    }
    if !Exists(fs, filePath) {
      return Response(404, None, TextBody("404 Not Found")), filePath;
    }
    var contentType := ContentType(ExtName(filePath));
    var content := read(filePath);
    if content.None? {
      return Response(500, None, TextBody("500 Internal Server Error")), filePath;
    }
    res := Response(200, Some(contentType), FileBody(content.value));
  }

  /** "/" is served from dist/index.html. */
  lemma RootResolvesToIndex(fs: FileSystem, dist: string)
    requires Join(dist, "index.html") !in fs.dirs
    ensures ResolvedPath(fs, dist, "/") == Join(dist, "index.html")
  {
  }

  /** A path that does not exist falls back to dist/index.html. */
  lemma MissingPathFallsBack(fs: FileSystem, dist: string, url: string)
    requires !Exists(fs, Join(dist, Requested(url)))
    requires Join(dist, "index.html") !in fs.dirs
    ensures ResolvedPath(fs, dist, url) == Join(dist, "index.html")
  {
  }

  /** An existing directory is served through its own index.html. */
  lemma DirectoryServesItsIndex(fs: FileSystem, dist: string, url: string)
    requires Join(dist, Requested(url)) in fs.dirs
    ensures ResolvedPath(fs, dist, url) == Join(Join(dist, Requested(url)), "index.html")
  {
  }

  /** An existing file is served as it is. */
  lemma ExistingFileIsServed(fs: FileSystem, dist: string, url: string)
    requires Join(dist, Requested(url)) in fs.files && Join(dist, Requested(url)) !in fs.dirs
    ensures ResolvedPath(fs, dist, url) == Join(dist, Requested(url))
  {
  }

  /** The last segment of `<dir>/index.html` is "index.html". */
  /** The last segment of "dir/file" is the file, for a file name without "/". */
  lemma LastSegmentOfFile(dir: string, file: string)
    requires file != [] && '/' !in file
    ensures LastSegment(Join(dir, file)) == file
  {
    var tail := ['/'] + file;
    assert file[0] != '/';
    var path := Join(dir, file);
    assert path == dir + tail;
    assert path[|path| - 1] == file[|file| - 1];
    assert TrimTrailingSlashes(path) == path;
    assert '/' in tail;
    AfterLastOfSuffix(dir, tail, '/');
    AfterSeparator('/', file);
  }

  /** The extension of "name.ext" is ".ext", whatever dots the name holds. */
  lemma SegmentExtOfName(name: string, ext: string)
    requires name != [] && ext != [] && '.' !in ext
    ensures SegmentExt(name + ['.'] + ext) == ['.'] + ext
  {
    var base := name + ['.'] + ext;
    assert base == name + (['.'] + ext);
    AfterLastOfSuffix(name, ['.'] + ext, '.');
    AfterSeparator('.', ext);
    assert AfterLast(base, '.') == ext;
  }

  /** The extension of "dir/name.ext" is ".ext". */
  lemma ExtNameOfFileName(dir: string, name: string, ext: string)
    requires name != [] && ext != []
    requires '/' !in name && '/' !in ext && '.' !in ext
    ensures ExtName(Join(dir, name + ['.'] + ext)) == ['.'] + ext
  {
    var file := name + ['.'] + ext;
    assert '/' !in file;
    LastSegmentOfFile(dir, file);
    SegmentExtOfName(name, ext);
  }

  lemma HtmlContentType(ext: string)
    requires ext == ".html"
    ensures ContentType(ext) == "text/html"
  {
  }

  lemma JsContentType(ext: string)
    requires ext == ".js"
    ensures ContentType(ext) == "text/javascript"
  {
  }

  lemma JsFileName(name: string, ext: string)
    requires ext == "js"
    ensures name + ".js" == name + ['.'] + ext
    ensures ext != [] && '.' !in ext && '/' !in ext && ['.'] + ext == ".js"
  {
  }

  /** A script file is served as JavaScript. */
  lemma ScriptsAreJavaScript(dir: string, name: string)
    requires name != [] && '/' !in name
    ensures ContentType(ExtName(Join(dir, name + ".js"))) == "text/javascript"
  {
    var ext := "js";
    JsFileName(name, ext);
    ExtNameOfFileName(dir, name, ext);
    JsContentType(['.'] + ext);
  }

  lemma IndexFileName(name: string, base: string, ext: string)
    requires name == "index.html" && base == "index" && ext == "html"
    ensures name == base + ['.'] + ext
    ensures base != [] && '/' !in base && ext != [] && '.' !in ext && '/' !in ext && ['.'] + ext == ".html"
  {
  }

  /** Every index.html is served as text/html. */
  lemma IndexIsHtml(dir: string)
    ensures ExtName(Join(dir, "index.html")) == ".html"
    ensures ContentType(ExtName(Join(dir, "index.html"))) == "text/html"
  {
    var name, base, ext := "index.html", "index", "html";
    IndexFileName(name, base, ext);
    ExtNameOfFileName(dir, base, ext);
    HtmlContentType(['.'] + ext);
  }

}
