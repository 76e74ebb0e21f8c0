/**
 * The plain PHP view (src/View/PHP.php): resolves a template name to a
 * script path under a root directory, refuses names holding "..", checks
 * that the script exists, and runs it with its output captured into the
 * body of a PSR-7 response.
 *
 * The file system, the registry of defined functions and the scripts
 * themselves are inputs: a map from path to script stands for the files
 * that exist, and a script is its output for a context, possibly followed
 * by an exception.
 */
module PhpView {
  import opened Php
  import opened Paths
  import opened Psr7

  // ---------------------------------------------------------------------
  // Template name to script path

  /** What `getFilePath` puts between a name without extension and the extension: `index.` after a trailing slash, else `.`. */
  function Stem(name: string): (q: string)
    ensures |q| > 0 && q[|q| - 1] == '.' && '/' !in q
    ensures q[0] == '.' <==> |q| == 1
  {
    if |name| > 0 && name[|name| - 1] == '/' then "index." else "."
  }

  /** The name part of `getFilePath`: the name itself when it has an extension, else the name, its stem and the extension. */
  function ScriptName(name: string, ext: string): string
  {
    if Extension(name) != "" then name else name + Stem(name) + ext
  }

  /** `getFilePath($name)`: the root without trailing slashes, one slash, the name without leading slashes. */
  function FilePath(root: string, ext: string, name: string): string
  {
    TrimEnd(root, '/') + "/" + TrimStart(ScriptName(name, ext), '/')
  }

  /** The text after the last dot of a dot-terminated prefix followed by `ext` is `ext`'s own extension. */
  lemma AfterLastDotThen(s: string, ext: string)
    requires |s| > 0 && s[|s| - 1] == '.'
    ensures AfterLast(s + ext, '.') == AfterLast(ext, '.')
  {
    if '.' in ext {
      AfterLastAppendHit(s, ext, '.');
    } else {
      AfterLastAppendFree(s, ext, '.');
      assert AfterLast(s, '.') == [];
      AfterLastUnique(ext, '.', ext);
    }
  }

  /** A path ending in a dot, followed by a slash-free `ext`, has the extension of `ext` ("a." + "html.php" has "php"). */
  lemma ExtensionAfterDot(s: string, ext: string)
    requires |s| > 0 && s[|s| - 1] == '.' && '/' !in ext
    ensures Extension(s + ext) == AfterLast(ext, '.')
  {
    var st := s + ext;
    assert st[|st| - 1] != '/' by {
      if ext == [] {
        assert st[|st| - 1] == s[|s| - 1];
      } else {
        assert st[|st| - 1] == ext[|ext| - 1];
      }
    }
    assert TrimEnd(st, '/') == st;
    AfterLastAppendFree(s, ext, '/');
    var a := AfterLast(s, '/');
    AfterLastKeepsLast(s, '/');
    assert Basename(st) == a + ext;
    assert '.' in a + ext by { assert (a + ext)[|a| - 1] == '.'; }
    AfterLastDotThen(a, ext);
  }

  /**
   * What `getFilePath` does to the name: a name with an extension is kept;
   * otherwise `.ext` is appended, or `index.ext` after a trailing slash.
   */
  lemma ScriptNameSpec(name: string, ext: string)
    ensures name <= ScriptName(name, ext)
    ensures Extension(name) != "" ==> ScriptName(name, ext) == name
    ensures Extension(name) == "" && |name| > 0 && name[|name| - 1] == '/' ==>
      ScriptName(name, ext) == name + "index." + ext
    ensures Extension(name) == "" && (|name| == 0 || name[|name| - 1] != '/') ==>
      ScriptName(name, ext) == name + "." + ext
  {
    ScriptNameShape(name, ext);
  }

  /** With a slash-free `ext`, a completed name has the extension that `ext` ends in ("html.php" gives "php"). */
  lemma ScriptNameExtension(name: string, ext: string)
    requires '/' !in ext
    ensures Extension(name) == "" ==> Extension(ScriptName(name, ext)) == AfterLast(ext, '.')
  {
    if Extension(name) == "" {
      ScriptNameShape(name, ext);
      StemmedExtension(name, Stem(name), ext);
    }
  }

  /** A dot-free name not ending in a slash gets `.ext` ("foo" gives "foo.php", or "foo.html.php" with `html.php`). */
  lemma ScriptNameOfPlainName(name: string, ext: string)
    requires '.' !in name && (name == [] || name[|name| - 1] != '/')
    ensures ScriptName(name, ext) == name + "." + ext
  {
    NoDotNoExtension(name);
  }

  /** A dot-free directory name gets `index.ext` ("foo/" gives "foo/index.php"). */
  lemma ScriptNameOfDirectory(dir: string, ext: string)
    requires '.' !in dir
    ensures ScriptName(dir + "/", ext) == dir + "/index." + ext
  {
    var d := dir + "/";
    DirectoryHasNoExtension(dir);
    ScriptNameOfSlashName(d, ext);
    SlashIndexExt(dir, ext);
  }

  /** The two ways of writing the directory index script name agree. */
  lemma SlashIndexExt(dir: string, ext: string)
    ensures dir + "/" + "index." + ext == dir + "/index." + ext
  {
  }

  /** Any extension-less name ending in a slash gets `index.ext`. */
  lemma ScriptNameOfSlashName(d: string, ext: string)
    requires Extension(d) == "" && |d| > 0 && d[|d| - 1] == '/'
    ensures ScriptName(d, ext) == d + "index." + ext
  {
  }

  /** A name with an extension is kept ("foo.phtml"), also behind a trailing slash. */
  lemma ScriptNameKeepsExtension(base: string, e: string, ext: string)
    requires e != "" && '.' !in e && '/' !in e
    ensures ScriptName(base + "." + e, ext) == base + "." + e
    ensures ScriptName(base + "." + e + "/", ext) == base + "." + e + "/"
  {
    DotSuffix(e);
    assert base + "." + e == base + ("." + e);
    ExtensionOfAppended(base, "." + e);
    ExtensionIgnoresTrailingSlash(base + "." + e);
  }

  /** The name is always a prefix of its resolution; an extension-less name gets its stem and the extension. */
  lemma ScriptNameShape(name: string, ext: string)
    ensures Extension(name) == "" ==> ScriptName(name, ext) == name + Stem(name) + ext
    ensures name <= ScriptName(name, ext)
  {
  }

  /** A name, a dot-terminated stem and a slash-free extension: the result has the extension's own extension. */
  lemma StemmedExtension(name: string, q: string, ext: string)
    requires |q| > 0 && q[|q| - 1] == '.' && '/' !in ext
    ensures Extension(name + q + ext) == AfterLast(ext, '.')
  {
    var p := name + q;
    assert p[|p| - 1] == '.';
    ExtensionAfterDot(p, ext);
  }

  /** With an extension that does not end in a dot, resolving a resolved name changes nothing. */
  lemma ScriptNameIdempotent(name: string, ext: string)
    requires ext != "" && '/' !in ext && ext[|ext| - 1] != '.'
    ensures ScriptName(ScriptName(name, ext), ext) == ScriptName(name, ext)
  {
    ScriptNameSpec(name, ext);
    ScriptNameExtension(name, ext);
    var e := AfterLast(ext, '.');
    assert |e| > 0 by {
      assert |e| < |ext| ==> ext[|ext| - |e| - 1] == '.';
    }
  }

  /**
   * The join in `getFilePath`: the path is the root with its trailing
   * slashes removed, exactly one slash, then the resolved name with its
   * leading slashes removed; so extra slashes on either side of the join
   * make no difference.
   */
  lemma FilePathJoin(root: string, ext: string, name: string)
    ensures var t := TrimEnd(root, '/');
      var p := FilePath(root, ext, name);
      |p| > |t| && p[..|t|] == t && p[|t|] == '/'
      && (|t| == 0 || p[|t| - 1] != '/')
      && (|p| == |t| + 1 || p[|t| + 1] != '/')
      && p[|t| + 1..] == TrimStart(ScriptName(name, ext), '/')
    ensures FilePath(root + "/", ext, name) == FilePath(root, ext, name)
  {
    JoinShape(TrimEnd(root, '/'), TrimStart(ScriptName(name, ext), '/'));
    TrimEndSlash(root);
  }

  /** Joining with one slash a text not ending in a slash and a text not starting with one. */
  lemma JoinShape(t: string, b: string)
    requires (t == [] || t[|t| - 1] != '/') && (b == [] || b[0] != '/')
    ensures var p := t + "/" + b;
      |p| > |t| && p[..|t|] == t && p[|t|] == '/'
      && (|t| == 0 || p[|t| - 1] != '/')
      && (|p| == |t| + 1 || p[|t| + 1] != '/')
      && p[|t| + 1..] == b
  {
  }

  /** One more trailing slash on the root makes no difference to `rtrim`. */
  lemma TrimEndSlash(root: string)
    ensures TrimEnd(root + "/", '/') == TrimEnd(root, '/')
  {
    var u := root + "/";
    assert u[|u| - 1] == '/' && u[..|u| - 1] == root;
  }

  /** No ".." segment sits at position `i` of a resolved name whose original held no "..". */
  lemma NoParentSegmentAt(name: string, ext: string, i: int)
    requires !ContainsDotDot(name)
    requires ext != "" && '/' !in ext && ext[0] != '.'
    ensures !ParentSegmentAt(ScriptName(name, ext), i)
  {
    if Extension(name) != "" {
      assert !DotDotAt(name, i);
    } else {
      NoParentSegmentInJoin(name, Stem(name), ext, i);
    }
  }

  /** The same for a name, a stem and an extension joined, with no reference to `pathinfo`. */
  lemma NoParentSegmentInJoin(name: string, q: string, ext: string, i: int)
    requires !ContainsDotDot(name)
    requires |q| > 0 && q[|q| - 1] == '.' && '/' !in q && (q[0] == '.' <==> |q| == 1)
    requires ext != "" && '/' !in ext && ext[0] != '.'
    ensures !ParentSegmentAt(name + q + ext, i)
  {
    var s := name + q + ext;
    if 0 <= i < |s| {
      var n, m := |name|, |name| + |q|;
      assert forall j :: 0 <= j < n ==> s[j] == name[j];
      assert forall j :: n <= j < m ==> s[j] == q[j - n];
      assert forall j :: m <= j < |s| ==> s[j] == ext[j - m];
      if i + 1 < n {
        assert !DotDotAt(name, i);
      } else if i + 1 == n {
        if |q| > 1 {
          assert s[i + 1] != '.';
        } else {
          assert s[i + 2] == ext[0];
        }
      } else if i == n {
        if |q| == 1 {
          assert s[i + 1] == ext[0];
        }
      } else {
        assert s[i - 1] != '/';
      }
    }
  }

  /**
   * The guard in `assertFile` keeps the path inside the root: when the
   * extension is non-empty, holds no slash and does not start with a dot,
   * a name without ".." resolves to a path whose part after the root has no
   * ".." segment.
   */
  lemma FilePathStaysInRoot(root: string, ext: string, name: string)
    requires !ContainsDotDot(name)
    requires ext != "" && '/' !in ext && ext[0] != '.'
    ensures var t := TrimEnd(root, '/');
      !HasParentSegment(FilePath(root, ext, name)[|t| + 1..])
  {
    var s := ScriptName(name, ext);
    forall i | 0 <= i < |s|
      ensures !ParentSegmentAt(s, i)
    {
      NoParentSegmentAt(name, ext, i);
    }
    TrimStartKeepsSegments(s);
    FilePathJoin(root, ext, name);
  }

  // ---------------------------------------------------------------------
  // Guard, registry, header

  /**
   * `assertFile($name)`: a name holding ".." is refused before anything
   * else; then the resolved path must be one of the existing files.
   */
  function AssertFile(root: string, ext: string, name: string, files: set<string>): (r: Result<()>)
    ensures ContainsDotDot(name) ==> r == Err(InvalidArgument("File name '" + name + "' isn't valid"))
    ensures !ContainsDotDot(name) && FilePath(root, ext, name) !in files ==>
      r == Err(RuntimeError("View file '" + FilePath(root, ext, name) + "' doesn't exist"))
    ensures r.Ok? <==> !ContainsDotDot(name) && FilePath(root, ext, name) in files
  {
    if ContainsDotDot(name) then Err(InvalidArgument("File name '" + name + "' isn't valid"))
    else
      var file := FilePath(root, ext, name);
      if file !in files then Err(RuntimeError("View file '" + file + "' doesn't exist"))
      else Ok(())
  }

  /** A file that passes the guard lies under the root, without a ".." segment after it. */
  lemma AssertedFileInsideRoot(root: string, ext: string, name: string, files: set<string>)
    requires ext != "" && '/' !in ext && ext[0] != '.'
    ensures AssertFile(root, ext, name, files).Ok? ==>
      var p := FilePath(root, ext, name);
      var t := TrimEnd(root, '/');
      p in files && p[..|t| + 1] == t + "/" && !HasParentSegment(p[|t| + 1..])
  {
    if AssertFile(root, ext, name, files).Ok? {
      assert !ContainsDotDot(name);
      FilePathStaysInRoot(root, ext, name);
      JoinPrefix(TrimEnd(root, '/'), TrimStart(ScriptName(name, ext), '/'));
    }
  }

  /** The joined path starts with its left part and the slash. */
  lemma JoinPrefix(a: string, b: string)
    ensures (a + "/" + b)[..|a| + 1] == a + "/"
  {
  }

  /** `expose` accepts a name only if the function exists and is exposed under its own name. */
  predicate MayExpose(name: string, fn: Callable, functions: set<string>)
  {
    name in functions && (fn.NoCallable? || fn == FunctionName(name))
  }

  /** `output`'s header rule: `Content-Type: text/html` only when the response has no Content-Type. */
  function WithDefaultContentType(response: Response): (r: Response)
    ensures r.body == response.body && HasHeader(r, ContentType)
    ensures HasHeader(response, ContentType) ==> r == response
    ensures !HasHeader(response, ContentType) ==>
      Header(r, ContentType) == "text/html"
      && forall n :: HeaderKey(n) != HeaderKey(ContentType) ==>
        (HasHeader(r, n) <==> HasHeader(response, n)) && (HasHeader(response, n) ==> Header(r, n) == Header(response, n))
  {
    if HasHeader(response, ContentType) then response else WithHeader(response, ContentType, "text/html")
  }

  /** Applying the header rule twice is applying it once. */
  lemma DefaultContentTypeIdempotent(response: Response)
    ensures WithDefaultContentType(WithDefaultContentType(response)) == WithDefaultContentType(response)
  {
  }

  // ---------------------------------------------------------------------
  // Output buffering

  /** What a script does when included: the text it emits, and whether it then throws. */
  datatype ScriptRun = Completed(output: string) | Threw(output: string, error: Error)

  /** A script file: its run for each context. */
  type Script = Context -> ScriptRun

  /**
   * PHP's stack of output buffers, each with a handler that writes to a body
   * stream; the innermost buffer is last.
   */
  class OutputBuffers {
    var handlers: seq<Stream>
    var contents: seq<string>

    predicate Valid()
      reads this
    {
      |handlers| == |contents|
    }

    constructor ()
      ensures Valid() && handlers == [] && contents == []
    {
      handlers := [];
      contents := [];
    }

    /** `ob_start($handler)`: opens an empty buffer whose handler writes to `target`. */
    method Start(target: Stream)
      requires Valid()
      modifies this
      ensures Valid() && handlers == old(handlers) + [target] && contents == old(contents) + [""]
    {
      handlers := handlers + [target];
      contents := contents + [""];
    }

    /** Running code emits text into the innermost buffer. */
    method Emit(text: string)
      requires Valid() && |handlers| > 0
      modifies this
      ensures Valid() && handlers == old(handlers)
      ensures contents == old(contents[..|contents| - 1]) + [old(contents[|contents| - 1]) + text]
    {
      contents := contents[..|contents| - 1] + [contents[|contents| - 1] + text];
    }

    /** `ob_end_clean()`: closes the innermost buffer, handing its contents to its handler once. */
    method EndClean()
      requires Valid() && |handlers| > 0
      modifies this, handlers[|handlers| - 1]
      ensures Valid()
      ensures handlers == old(handlers[..|handlers| - 1]) && contents == old(contents[..|contents| - 1])
      ensures old(handlers[|handlers| - 1]).chunks
        == old(handlers[|handlers| - 1].chunks) + [old(contents[|contents| - 1])]
    {
      var target := handlers[|handlers| - 1];
      var buffer := contents[|contents| - 1];
      handlers := handlers[..|handlers| - 1];
      contents := contents[..|contents| - 1];
      target.Write(buffer);
    }
  }

  // ---------------------------------------------------------------------
  // The view

  /** The options array: `path` is required, `ext` is optional. */
  datatype PhpOptions = PhpOptions(path: Option<string>, ext: Option<string>)

  class PHP {
    /** `$path` (`getPath`) */
    const path: string
    /** `$ext` (`getExt`) */
    const ext: string

    constructor (path: string, ext: string)
      ensures this.path == path && this.ext == ext
    {
      this.path := path;
      this.ext := ext;
    }

    /** `__construct($options)`: `path` is required; `ext` defaults to "php". */
    static method New(options: PhpOptions) returns (r: Result<PHP>)
      ensures options.path.None? ==> r == Err(BadMethodCall("'path' option is required"))
      ensures options.path.Some? ==>
        r.Ok? && fresh(r.value) && r.value.path == options.path.value
        && r.value.ext == (if options.ext.Some? then options.ext.value else "php")
    {
      if options.path.None? {
        return Err(BadMethodCall("'path' option is required"));
      }
      var view := new PHP(options.path.value, if options.ext.Some? then options.ext.value else "php");
      return Ok(view);
    }

    /**
     * `expose($name, $function)`: nothing to register; returns the view when
     * the function exists and no alias is asked for, and throws otherwise.
     */
    method Expose(name: string, fn: Callable, functions: set<string>) returns (r: Result<PHP>)
      ensures r.Ok? <==> name in functions && (fn.NoCallable? || fn == FunctionName(name))
      ensures r.Ok? ==> r.value == this
      ensures r.Err? ==> r.error == BadMethodCall("Exposing functions under an alias isn't supported with PHP views")
    {
      if MayExpose(name, fn, functions) {
        return Ok(this);
      }
      return Err(BadMethodCall("Exposing functions under an alias isn't supported with PHP views"));
    }

    /**
     * The capture bracket of `output`: a buffer is opened with a handler that
     * writes to `body`, the script emits `text` into it, and the buffer is
     * closed again, in a `finally`, so on every path; the handler thus
     * writes `text` to the body once and the buffer stack is as before.
     */
    static method Capture(body: Stream, text: string, buffers: OutputBuffers)
      requires buffers.Valid()
      modifies body, buffers
      ensures buffers.Valid() && buffers.handlers == old(buffers.handlers) && buffers.contents == old(buffers.contents)
      ensures body.chunks == old(body.chunks) + [text]
    {
      buffers.Start(body);
      buffers.Emit(text);
      assert buffers.contents[|buffers.contents| - 1] == "" + text == text;
      buffers.EndClean();
      assert buffers.handlers == old(buffers.handlers);
    }

    /**
     * `output($response, $name, $context)`: checks the file first (a refused
     * or missing file writes nothing and opens no buffer); otherwise sets the
     * default Content-Type, opens a buffer whose handler writes to the body,
     * runs the script and closes the buffer on every path, so the body gets
     * exactly one write of whatever the script emitted, and the buffer stack
     * is left as it was.
     */
    method Output(response: Response, name: string, context: Context,
                  scripts: map<string, Script>, buffers: OutputBuffers) returns (r: Result<Response>)
      requires buffers.Valid()
      modifies response.body, buffers
      ensures buffers.Valid() && buffers.handlers == old(buffers.handlers) && buffers.contents == old(buffers.contents)
      ensures match AssertFile(path, ext, name, scripts.Keys)
        case Err(e) =>
          r == Err(e) && response.body.chunks == old(response.body.chunks)
        case Ok(_) =>
          var run := scripts[FilePath(path, ext, name)](context);
          response.body.chunks == old(response.body.chunks) + [run.output]
          && r == (if run.Completed? then Ok(WithDefaultContentType(response)) else Err(run.error))
    {
      var check := AssertFile(path, ext, name, scripts.Keys);
      if check.Err? {
        return Err(check.error);
      }
      var newResponse := WithDefaultContentType(response);
      var run := scripts[FilePath(path, ext, name)](context);
      Capture(newResponse.body, run.output, buffers);
      if run.Threw? {
        return Err(run.error);
      }
      return Ok(newResponse);
    }
  }
}
