/**
 * The asset-combining view helper. Stylesheets and scripts are registered
 * in two containers, each a pair of parallel lists: the resolved filesystem
 * paths (`intern`) and the references as the page gave them (`extern`).
 * Fetching a kind either lists the references one by one (development) or
 * points at one combined cache file, writing that file first when it is not
 * on disk yet (production).
 */
module MinifyHelper {
  import opened Wrappers
  import opened PhpStrings
  import opened AssetFiles
  import opened CssRewrite

  /** Stylesheets or scripts. */
  datatype Kind = Css | Js

  /** What `style()` or `script()` is given: nothing, one reference, a list
      of references, or a value of any other type. */
  datatype Files = Null | Str(ref: string) | Arr(refs: seq<string>) | Other

  /** The failure of an unsupported kind name: the call aborts before
      anything is set or built. */
  datatype Error = NotSupported(what: string)

  /** The helper's configuration: the framework's debug flag, the public
      cache directory of each kind, its filesystem route (computed by the
      constructor from the web root), and the compression switches. */
  datatype Config = Config(
    debug: bool,
    htmlCompression: bool,
    cssPath: string, cssRoute: Path, cssCompression: bool,
    jsPath: string, jsRoute: Path, jsCompression: bool)

  /** The collaborators the helper calls but that are not part of it. */
  datatype Env = Env(
    hash: seq<Option<Path>> -> string,          // md5(serialize($intern))
    cssMin: string -> string,                   // CSSmin::run
    jsMin: string -> string,                    // Minify_JS_ClosureCompiler::minify
    htmlMin: string -> string,                  // Minify_HTML::minify
    rootUrl: string,                            // Url->build(webroot, true)
    webrootPath: (Kind, string) -> Path,        // the reference's path under WWW_ROOT
    pluginPath: (Kind, string) -> Option<Path>) // its path in a loaded plugin, if any

  /** The directory separator. */
  const DS := "/"

  /** The references a `style()`/`script()` argument stands for: a string is
      a one-element list, `null` and other values stand for none. */
  function Refs(files: Files): seq<string> {
    match files
    case Str(r) => [r]
    case Arr(rs) => rs
    case _ => []
  }

  /** `path()`: the web root path when that file exists, else the plugin
      path, which is absent when no plugin of that name is loaded. */
  function Resolve(fs: FileSystem, env: Env, kind: Kind, ref: string): (r: Option<Path>)
    ensures env.webrootPath(kind, ref) in fs ==> r == Some(env.webrootPath(kind, ref))
    ensures env.webrootPath(kind, ref) !in fs ==> r == env.pluginPath(kind, ref)
  {
    var w := env.webrootPath(kind, ref);
    if w in fs then Some(w) else env.pluginPath(kind, ref)
  }

  /** The resolved group for a list of references, one entry per reference. */
  function ResolveAll(fs: FileSystem, env: Env, kind: Kind, refs: seq<string>): (r: seq<Option<Path>>)
    ensures |r| == |refs|
    ensures forall k :: 0 <= k < |refs| ==> r[k] == Resolve(fs, env, kind, refs[k])
  {
    seq(|refs|, k requires 0 <= k < |refs| => Resolve(fs, env, kind, refs[k]))
  }

  /** `_html`: the minified, trimmed page in production with compression on,
      the page unchanged otherwise. */
  function Html(content: string, debug: bool, compression: bool, htmlMin: string -> string): (r: string)
    ensures debug || !compression ==> r == content
    ensures !debug && compression ==> r == Trim(htmlMin(content))
    ensures !debug && compression ==> r == [] || (!IsTrimChar(r[0]) && !IsTrimChar(r[|r| - 1]))
  {
    if !debug && compression then Trim(htmlMin(content)) else content
  }

  /** Every chunk with its parent references replaced by the root URL. */
  function RewriteAll(chunks: seq<string>, url: string): (r: seq<string>)
    ensures |r| == |chunks|
    ensures forall k :: 0 <= k < |chunks| ==> r[k] == RewriteRelative(chunks[k], url)
  {
    seq(|chunks|, k requires 0 <= k < |chunks| => RewriteRelative(chunks[k], url))
  }

  /** The compressed output: each chunk minified and trimmed, in order. */
  function MinifyAll(min: string -> string, chunks: seq<string>): string {
    if chunks == [] then [] else MinifyAll(min, chunks[..|chunks| - 1]) + Trim(min(chunks[|chunks| - 1]))
  }

  /** The extension of a kind's cache file, also its name in `filename()`. */
  function Ext(kind: Kind): string {
    if kind == Css then "css" else "js"
  }

  /** The contents written to a kind's cache file. */
  function CacheContent(kind: Kind, fs: FileSystem, intern: seq<Option<Path>>, env: Env, compression: bool): string {
    var chunks := ChunksOf(WrappedContents(fs, intern));
    var ready := if kind == Css then RewriteAll(chunks, env.rootUrl) else chunks;
    if compression then MinifyAll(if kind == Css then env.cssMin else env.jsMin, ready)
    else Implode("\n", ready)
  }

  /** What fetching a kind leaves behind: the filesystem and the arguments
      handed to the tag helper (the references as given, or the cache file's
      URL). */
  datatype Rendered = Rendered(fs: FileSystem, urls: seq<string>)

  /** The development/production choice and the write-once rule. In
      development the references are listed as given and nothing is
      written. In production the single URL is the cache file's; an existing
      cache file is never rewritten, a missing one is written, and the cache
      file exists afterwards. */
  function Render(production: bool, fs: FileSystem, extern: seq<string>, target: Path, url: string,
                  content: string, now: nat): (r: Rendered)
    ensures !production ==> r.fs == fs && r.urls == extern
    ensures production ==> target in r.fs && r.urls == [url]
    ensures production && target in fs ==> r.fs == fs
    ensures production && target !in fs ==> r.fs == fs[target := File(content, now)]
  {
    if !production then Rendered(fs, extern)
    else if target in fs then Rendered(fs, [url])
    else Rendered(fs[target := File(content, now)], [url])
  }

  class Minify {
    const config: Config

    var cssIntern: seq<Option<Path>>
    var cssExtern: seq<string>
    var jsIntern: seq<Option<Path>>
    var jsExtern: seq<string>

    /** Simulate production while in debug mode. */
    var live: bool

    /** The two lists of each container stay parallel. */
    ghost predicate Valid()
      reads this
    {
      |cssIntern| == |cssExtern| && |jsIntern| == |jsExtern|
    }

    constructor (config: Config)
      ensures Valid() && this.config == config
      ensures cssIntern == [] && cssExtern == [] && jsIntern == [] && jsExtern == []
      ensures !live
    {
      this.config := config;
      cssIntern, cssExtern := [], [];
      jsIntern, jsExtern := [], [];
      live := false;
    }

    function Intern(kind: Kind): seq<Option<Path>>
      reads this
    {
      if kind == Css then cssIntern else jsIntern
    }

    function Extern(kind: Kind): seq<string>
      reads this
    {
      if kind == Css then cssExtern else jsExtern
    }

    /** Combine and cache unless in debug mode without simulated production. */
    predicate Production()
      reads this
    {
      !config.debug || live
    }

    /** The name of a kind's cache file for the current registrations. */
    function CacheFile(kind: Kind, fs: FileSystem, env: Env): string
      reads this
    {
      CacheName(LastModified(fs, Intern(kind)), env.hash(Intern(kind)), Ext(kind))
    }

    /** Where a kind's cache file lives on disk. */
    function Target(kind: Kind, fs: FileSystem, env: Env): Path
      reads this
    {
      (if kind == Css then config.cssRoute else config.jsRoute) + DS + CacheFile(kind, fs, env)
    }

    /** The outcome of fetching a kind in the current state. */
    function Rendering(kind: Kind, fs: FileSystem, env: Env, now: nat): Rendered
      reads this
    {
      var intern := Intern(kind);
      Render(Production(), fs, Extern(kind), Target(kind, fs, env),
             (if kind == Css then config.cssPath else config.jsPath) + "/" + CacheFile(kind, fs, env),
             CacheContent(kind, fs, intern, env, if kind == Css then config.cssCompression else config.jsCompression),
             now)
    }

    /** The loop of `style()`/`script()` that resolves each reference. */
    method ResolveGroup(kind: Kind, refs: seq<string>, fs: FileSystem, env: Env) returns (group: seq<Option<Path>>)
      ensures |group| == |refs|
      ensures forall k :: 0 <= k < |refs| ==> group[k] == Resolve(fs, env, kind, refs[k])
    {
      group := [];
      for i := 0 to |refs|
        invariant |group| == i
        invariant forall k :: 0 <= k < i ==> group[k] == Resolve(fs, env, kind, refs[k])
      {
        group := group + [Resolve(fs, env, kind, refs[i])];
      }
    }

    /** `style()`: the new group goes in front of the stylesheets registered
        so far, both as resolved paths and as given; scripts are untouched.
        `null` and values that are neither a string nor a list change nothing,
        since `Refs` gives no references for them. */
    method Style(files: Files, fs: FileSystem, env: Env)
      requires Valid()
      modifies this
      ensures Valid()
      ensures cssExtern == Refs(files) + old(cssExtern)
      ensures cssIntern == ResolveAll(fs, env, Css, Refs(files)) + old(cssIntern)
      ensures jsIntern == old(jsIntern) && jsExtern == old(jsExtern) && live == old(live)
    {
      if files.Null? {
        return;
      }
      var list: seq<string>;
      match files {
        case Str(r) => list := [r];
        case Arr(rs) => list := rs;
        case Other => return;
      }
      var group := ResolveGroup(Css, list, fs, env);
      cssIntern := group + cssIntern;
      cssExtern := list + cssExtern;
    }

    /** `script()`: as `style()`, for scripts. */
    method Script(files: Files, fs: FileSystem, env: Env)
      requires Valid()
      modifies this
      ensures Valid()
      ensures jsExtern == Refs(files) + old(jsExtern)
      ensures jsIntern == ResolveAll(fs, env, Js, Refs(files)) + old(jsIntern)
      ensures cssIntern == old(cssIntern) && cssExtern == old(cssExtern) && live == old(live)
    {
      if files.Null? {
        return;
      }
      var list: seq<string>;
      match files {
        case Str(r) => list := [r];
        case Arr(rs) => list := rs;
        case Other => return;
      }
      var group := ResolveGroup(Js, list, fs, env);
      jsIntern := group + jsIntern;
      jsExtern := list + jsExtern;
    }

    /** `fetch()`: only "style" and "script" are supported, and an unsupported
        name fails before anything is set or built. Otherwise the live flag
        is set and the kind is rendered. */
    method Fetch(what: string, simulateLive: bool, fs: FileSystem, env: Env, now: nat)
      returns (r: Result<Rendered, Error>)
      requires Valid()
      modifies this`live
      ensures Valid()
      ensures what != "style" && what != "script" ==> r == Failure(NotSupported(what)) && live == old(live)
      ensures what == "style" || what == "script" ==> live == simulateLive
      ensures what == "style" ==> r == Success(Rendering(Css, fs, env, now))
      ensures what == "script" ==> r == Success(Rendering(Js, fs, env, now))
    {
      if what != "style" && what != "script" {
        return Failure(NotSupported(what));
      }
      live := simulateLive;
      var rendered: Rendered;
      if what == "style" {
        rendered := BuildStyle(fs, env, now);
      } else {
        rendered := BuildScript(fs, env, now);
      }
      r := Success(rendered);
    }

    /** `filename()`: "css" or "js" only; the name is built from the newest
        mtime among the kind's resolved files that exist and the hash of the
        resolved list. */
    method Filename(what: string, fs: FileSystem, env: Env) returns (r: Result<string, Error>)
      ensures what != "css" && what != "js" ==> r == Failure(NotSupported(what))
      ensures what == "css" ==> r == Success(CacheName(LastModified(fs, cssIntern), env.hash(cssIntern), "css"))
      ensures what == "js" ==> r == Success(CacheName(LastModified(fs, jsIntern), env.hash(jsIntern), "js"))
    {
      if what != "css" && what != "js" {
        return Failure(NotSupported(what));
      }
      var intern := if what == "css" then cssIntern else jsIntern;
      var last := 0;
      for i := 0 to |intern|
        invariant last == LastModified(fs, intern[..i])
      {
        assert intern[..i + 1][..i] == intern[..i];
        var res := intern[i];
        if Exists(fs, res) && fs[res.value].mtime > last {
          last := fs[res.value].mtime;
        }
      }
      assert intern[..|intern|] == intern;
      r := Success(CacheName(last, env.hash(intern), what));
    }

    /** `chunks()`: the wrapped contents of the files, packed in order. */
    method Chunks(fs: FileSystem, files: seq<Option<Path>>) returns (output: seq<string>)
      ensures output == ChunksOf(WrappedContents(fs, files))
    {
      ghost var ws := WrappedContents(fs, files);
      var index := 0;
      output := [""];
      for i := 0 to |files|
        invariant index == |output| - 1
        invariant output == ChunksOf(ws[..i])
      {
        assert ws[..i + 1][..i] == ws[..i];
        var content := "\n" + ReadFile(fs, files[i]) + "\n";
        ghost var before := output;
        if |output[index] + content| > ChunkLimit {
          index := index + 1;
          output := output + [""];
        }
        output := output[index := output[index] + content];
        AddToChunksInPlace(before, content);
      }
      assert ws[..|files|] == ws;
    }

    /** The loop of `_style()` that rewrites parent references in each chunk. */
    method RewriteChunks(chunks: seq<string>, url: string) returns (result: seq<string>)
      ensures result == RewriteAll(chunks, url)
    {
      result := chunks;
      for i := 0 to |chunks|
        invariant |result| == |chunks|
        invariant forall k :: 0 <= k < i ==> result[k] == RewriteRelative(chunks[k], url)
        invariant forall k :: i <= k < |chunks| ==> result[k] == chunks[k]
      {
        result := result[i := RewriteRelative(result[i], url)];
      }
    }

    /** The compression loop of `_style()` and `_script()`. */
    method Compress(min: string -> string, chunks: seq<string>) returns (output: string)
      ensures output == MinifyAll(min, chunks)
    {
      output := [];
      for i := 0 to |chunks|
        invariant output == MinifyAll(min, chunks[..i])
      {
        assert chunks[..i + 1][..i] == chunks[..i];
        output := output + Trim(min(chunks[i]));
      }
      assert chunks[..|chunks|] == chunks;
    }

    /** `_style()`. */
    method BuildStyle(fs: FileSystem, env: Env, now: nat) returns (r: Rendered)
      ensures r == Rendering(Css, fs, env, now)
    {
      if !config.debug || live {
        var cache := Filename("css", fs, env);
        var target := config.cssRoute + DS + cache.value;
        var fs' := fs;
        if target !in fs {
          var chunks := Chunks(fs, cssIntern);
          chunks := RewriteChunks(chunks, env.rootUrl);
          var output: string;
          if config.cssCompression {
            output := Compress(env.cssMin, chunks);
          } else {
            output := Implode("\n", chunks);
          }
          fs' := fs[target := File(output, now)];
        }
        r := Rendered(fs', [config.cssPath + "/" + cache.value]);
      } else {
        r := Rendered(fs, cssExtern);
      }
    }

    /** `_script()`. */
    method BuildScript(fs: FileSystem, env: Env, now: nat) returns (r: Rendered)
      ensures r == Rendering(Js, fs, env, now)
    {
      if !config.debug || live {
        var cache := Filename("js", fs, env);
        var target := config.jsRoute + DS + cache.value;
        var fs' := fs;
        if target !in fs {
          var chunks := Chunks(fs, jsIntern);
          var output: string;
          if config.jsCompression {
            output := Compress(env.jsMin, chunks);
          } else {
            output := Implode("\n", chunks);
          }
          fs' := fs[target := File(output, now)];
        }
        r := Rendered(fs', [config.jsPath + "/" + cache.value]);
      } else {
        r := Rendered(fs, jsExtern);
      }
    }
  }

  /** One step of the chunking loop as the helper performs it, by updating
      the current chunk in place. */
  lemma AddToChunksInPlace(chunks: seq<string>, w: string)
    requires chunks != []
    ensures var n := |chunks| - 1;
      AddToChunks(chunks, w) ==
        if |chunks[n] + w| > ChunkLimit then (chunks + [""])[n + 1 := "" + w]
        else chunks[n := chunks[n] + w]
  {
    assert "" + w == w;
  }

  /** Without compression, scripts whose wrapped contents fit in one chunk
      are cached as exactly those contents, in order. */
  lemma UncompressedScriptIsFiles(fs: FileSystem, intern: seq<Option<Path>>, env: Env)
    requires TotalLength(WrappedContents(fs, intern)) <= ChunkLimit
    ensures CacheContent(Js, fs, intern, env, false) == Concat(WrappedContents(fs, intern))
  {
    SmallFilesOneChunk(WrappedContents(fs, intern));
  }

  /** Chunks without `../` come through the rewrite unchanged. */
  lemma RewriteAllWithoutUp(chunks: seq<string>, url: string)
    requires forall k :: 0 <= k < |chunks| ==> !HasUp(chunks[k])
    ensures RewriteAll(chunks, url) == chunks
  {
    forall k | 0 <= k < |chunks|
      ensures RewriteAll(chunks, url)[k] == chunks[k]
    {
      RewriteWithoutUp(chunks[k], url);
    }
  }

  /** Fetching a kind a second time, with nothing touched in between, reuses
      the cache file the first fetch left: same URL, nothing rewritten. (The
      cache file must not itself be one of the registered files.) */
  lemma CacheReused(h: Minify, kind: Kind, fs: FileSystem, env: Env, now1: nat, now2: nat)
    requires Some(h.Target(kind, fs, env)) !in h.Intern(kind)
    ensures h.Rendering(kind, h.Rendering(kind, fs, env, now1).fs, env, now2) == h.Rendering(kind, fs, env, now1)
  {
    var r1 := h.Rendering(kind, fs, env, now1);
    if h.Production() && h.Target(kind, fs, env) !in fs {
      var content := CacheContent(kind, fs, h.Intern(kind), env, if kind == Css then h.config.cssCompression else h.config.jsCompression);
      LastModifiedAfterWrite(fs, h.Target(kind, fs, env), File(content, now1), h.Intern(kind));
    }
  }

  /** In development the references come out most recent registration first:
      `style("x.css")` then `style(["y.css"])` lists y.css before x.css. */
  method RegistrationOrderExample(config: Config, fs: FileSystem, env: Env, now: nat) returns (urls: seq<string>)
    requires config.debug
    ensures urls == ["y.css", "x.css"]
  {
    var h := new Minify(config);
    h.Style(Str("x.css"), fs, env);
    assert h.cssExtern == ["x.css"];
    h.Style(Arr(["y.css"]), fs, env);
    assert h.cssExtern == ["y.css", "x.css"];
    var r := h.Fetch("style", false, fs, env, now);
    assert !h.Production();
    assert h.Rendering(Css, fs, env, now).urls == h.Extern(Css);
    urls := r.value.urls;
  }
}
