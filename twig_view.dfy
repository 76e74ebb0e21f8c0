/**
 * The Twig view (src/View/Twig.php): resolves a template name to a Twig
 * file name, validates and registers exposed functions and filters, keeps
 * an append-only list of plugins and renders a template into a PSR-7
 * response, calling every plugin's `onRender` hook first.
 *
 * The Twig engine, the plugins and the response body are collaborators the
 * view only calls. The calls `expose`, `addPlugin` and `render` make on them
 * are recorded, in order, in the view's ghost call log.
 */
module TwigView {
  import opened Php
  import opened Paths
  import opened Psr7

  // ---------------------------------------------------------------------
  // Template name to file name

  /** `getFilename`: add `.html.twig`, or `index.html.twig` after a trailing slash, to a name without extension. */
  function Filename(name: string): (file: string)
    ensures name <= file
  {
    if Extension(name) != "" then name
    else if |name| > 0 && name[|name| - 1] == '/' then name + "index.html.twig"
    else name + ".html.twig"
  }

  /** What `Filename` does to a name, and that its result always has an extension. */
  lemma FilenameSpec(name: string)
    ensures name <= Filename(name)
    ensures Extension(name) != "" ==> Filename(name) == name
    ensures Extension(name) == "" && |name| > 0 && name[|name| - 1] == '/' ==>
      Filename(name) == name + "index.html.twig"
    ensures Extension(name) == "" && (|name| == 0 || name[|name| - 1] != '/') ==>
      Filename(name) == name + ".html.twig"
    ensures Extension(name) == "" ==> Extension(Filename(name)) == "twig"
    ensures Extension(Filename(name)) != ""
  {
    if Extension(name) == "" {
      TwigSuffixes();
      if |name| > 0 && name[|name| - 1] == '/' {
        ExtensionOfAppended(name, "index.html.twig");
      } else {
        ExtensionOfAppended(name, ".html.twig");
      }
    }
  }

  /** Both suffixes `getFilename` appends end in the extension `twig`. */
  lemma TwigSuffixes()
    ensures '/' !in ".html.twig" && '.' in ".html.twig" && AfterLast(".html.twig", '.') == "twig"
    ensures '/' !in "index.html.twig" && '.' in "index.html.twig" && AfterLast("index.html.twig", '.') == "twig"
  {
    TwigSuffix(".html");
    TwigSuffix("index.html");
    assert ".html" + ".twig" == ".html.twig";
    assert "index.html" + ".twig" == "index.html.twig";
  }

  /** A slash-free prefix followed by `.twig` has the extension `twig`. */
  lemma TwigSuffix(p: string)
    requires '/' !in p
    ensures '/' !in p + ".twig" && '.' in p + ".twig" && AfterLast(p + ".twig", '.') == "twig"
  {
    DotSuffix("twig");
    AfterLastAppendHit(p, ".twig", '.');
    assert (p + ".twig")[|p|] == '.';
  }

  /** Resolving an already resolved name changes nothing. */
  lemma FilenameIdempotent(name: string)
    ensures Filename(Filename(name)) == Filename(name)
  {
    FilenameSpec(name);
  }

  /** A dot-free name not ending in a slash gets `.html.twig` ("foo", "foo/bar/zoo", and also ""). */
  lemma FilenameOfPlainName(name: string)
    requires '.' !in name && (name == [] || name[|name| - 1] != '/')
    ensures Filename(name) == name + ".html.twig"
  {
    NoDotNoExtension(name);
  }

  /** A dot-free directory name gets `index.html.twig` ("foo/bar/"). */
  lemma FilenameOfDirectory(dir: string)
    requires '.' !in dir
    ensures Filename(dir + "/") == dir + "/index.html.twig"
  {
    var d := dir + "/";
    DirectoryHasNoExtension(dir);
    FilenameOfSlashName(d);
    SlashIndex(dir);
  }

  /** The two ways of writing the directory index file name agree. */
  lemma SlashIndex(dir: string)
    ensures dir + "/" + "index.html.twig" == dir + "/index.html.twig"
  {
  }

  /** Any extension-less name ending in a slash gets `index.html.twig`. */
  lemma FilenameOfSlashName(d: string)
    requires Extension(d) == "" && |d| > 0 && d[|d| - 1] == '/'
    ensures Filename(d) == d + "index.html.twig"
  {
  }

  /** A name with an extension is kept ("foo.html", "foo.html.twig"), also behind a trailing slash ("foo.bar/"). */
  lemma FilenameKeepsExtension(base: string, ext: string)
    requires ext != "" && '.' !in ext && '/' !in ext
    ensures Filename(base + "." + ext) == base + "." + ext
    ensures Filename(base + "." + ext + "/") == base + "." + ext + "/"
  {
    DotSuffix(ext);
    assert base + "." + ext == base + ("." + ext);
    ExtensionOfAppended(base, "." + ext);
    ExtensionIgnoresTrailingSlash(base + "." + ext);
  }

  // ---------------------------------------------------------------------
  // Names of exposed functions and filters: preg_match('/^[a-z]\w*$/i', $name)

  predicate IsLetter(c: char)
  {
    'a' <= c <= 'z' || 'A' <= c <= 'Z'
  }

  /** `\w` without the `u` modifier */
  predicate IsWordChar(c: char)
  {
    IsLetter(c) || '0' <= c <= '9' || c == '_'
  }

  /** A letter followed by word characters: what the pattern is meant to accept. */
  predicate IsIdentifier(s: string)
  {
    |s| > 0 && IsLetter(s[0]) && forall i :: 1 <= i < |s| ==> IsWordChar(s[i])
  }

  /**
   * `\w*$` matched from index `i`. Without the `D` modifier PCRE's `$` matches
   * at the very end and also just before a newline that ends the subject.
   */
  predicate WordsToEnd(s: string, i: nat)
    decreases |s| - i
  {
    i >= |s| || (i == |s| - 1 && s[i] == '\n') || (IsWordChar(s[i]) && WordsToEnd(s, i + 1))
  }

  /** The whole pattern, anchored with `^`, case-insensitive. */
  predicate MatchesNamePattern(s: string)
  {
    |s| > 0 && IsLetter(s[0]) && WordsToEnd(s, 1)
  }

  predicate AllWordChars(s: string, from: nat, to: nat)
    requires to <= |s|
  {
    forall j :: from <= j < to ==> IsWordChar(s[j])
  }

  lemma {:induction false} WordsToEndSpec(s: string, i: nat)
    requires i <= |s|
    ensures WordsToEnd(s, i) <==>
      AllWordChars(s, i, |s|) || (i < |s| && s[|s| - 1] == '\n' && AllWordChars(s, i, |s| - 1))
    decreases |s| - i
  {
    if i < |s| && !(i == |s| - 1 && s[i] == '\n') {
      WordsToEndSpec(s, i + 1);
      if IsWordChar(s[i]) {
        assert AllWordChars(s, i, |s|) <==> AllWordChars(s, i + 1, |s|);
        if i < |s| - 1 {
          assert AllWordChars(s, i, |s| - 1) <==> AllWordChars(s, i + 1, |s| - 1);
        }
      }
    }
  }

  /**
   * The names the pattern accepts: identifiers, and (PCRE's `$` quirk)
   * identifiers followed by one final newline.
   */
  lemma NamePatternAccepts(s: string)
    ensures MatchesNamePattern(s) <==>
      IsIdentifier(s) || (|s| >= 2 && s[|s| - 1] == '\n' && IsIdentifier(s[..|s| - 1]))
  {
    if |s| > 0 {
      WordsToEndSpec(s, 1);
      if |s| >= 2 {
        var t := s[..|s| - 1];
        assert AllWordChars(s, 1, |s| - 1) <==> (forall i :: 1 <= i < |t| ==> IsWordChar(t[i]));
      }
    }
  }

  /** Names from the view's tests, and the newline the pattern lets through. */
  lemma NamePatternExamples()
    ensures MatchesNamePattern("strlen") && MatchesNamePattern("string_length") && MatchesNamePattern("foo")
    ensures !MatchesNamePattern("/abc/def") && !MatchesNamePattern("1abc") && !MatchesNamePattern("")
    ensures MatchesNamePattern("foo\n") && !MatchesNamePattern("foo\n\n")
  {
    NamePatternAccepts("foo\n");
    assert "foo\n"[..3] == "foo";
    NamePatternAccepts("foo\n\n");
    assert !IsIdentifier("foo\n") by { assert !IsWordChar("foo\n"[3]); }
    assert !IsIdentifier("foo\n\n") by { assert !IsWordChar("foo\n\n"[3]); }
  }

  /** `assertViewVariableName`: the name as a string, or the exception it throws. */
  function CheckName(name: Value): (r: Result<string>)
    ensures r.Ok? <==> name.Str? && MatchesNamePattern(name.s)
    ensures r.Ok? ==> r.value == name.s && Truthy(FunctionName(r.value))
    ensures !name.Str? ==> r == Err(InvalidArgument("Expected name to be a string, not a " + Describe(name)))
    ensures name.Str? && !MatchesNamePattern(name.s) ==> r == Err(InvalidArgument("Invalid name '" + name.s + "'"))
  {
    if !name.Str? then Err(InvalidArgument("Expected name to be a string, not a " + Describe(name)))
    else if !MatchesNamePattern(name.s) then Err(InvalidArgument("Invalid name '" + name.s + "'"))
    else
      assert name.s[0] != '0';
      Ok(name.s)
  }

  /** A float name is refused as a `double`. */
  lemma FloatNameRefused(f: real)
    ensures CheckName(Float(f)) == Err(InvalidArgument("Expected name to be a string, not a double"))
  {
    assert Describe(Float(f)) == "double";
    assert "Expected name to be a string, not a " + "double" == "Expected name to be a string, not a double";
  }

  // ---------------------------------------------------------------------
  // expose

  /** A `Twig_SimpleFunction` or `Twig_SimpleFilter` handed to the engine. */
  datatype Registration =
    | SimpleFunction(name: string, callable: Callable)
    | SimpleFilter(name: string, callable: Callable)

  /** What `expose($name, $function, $as)` registers, or the exception it throws. */
  function Exposure(name: Value, fn: Callable, kind: Value): (r: Result<Registration>)
    ensures r.Ok? <==> name.Str? && MatchesNamePattern(name.s) && (kind == Str("function") || kind == Str("filter"))
    ensures r.Ok? ==> r.value.name == name.s && (r.value.SimpleFunction? <==> kind == Str("function"))
    ensures r.Ok? ==> Truthy(r.value.callable) && r.value.callable == (if Truthy(fn) then fn else FunctionName(name.s))
    ensures r.Err? ==> r.error.InvalidArgument?
    ensures CheckName(name).Err? ==> r == Err(CheckName(name).error)
  {
    match CheckName(name)
    case Err(e) => Err(e)
    case Ok(n) =>
      var target := if Truthy(fn) then fn else FunctionName(n);
      if kind == Str("function") then Ok(SimpleFunction(n, target))
      else if kind == Str("filter") then Ok(SimpleFilter(n, target))
      else Err(InvalidArgument("You can create either a 'function' or 'filter', not a "
                               + (if kind.Str? then "'" + kind.s + "'" else TypeName(kind))))
  }

  // ---------------------------------------------------------------------
  // Collaborators

  /** The outcome of a Twig template's `render($context)`. */
  datatype Rendered = Rendered(text: string) | Failed(error: Error)

  /** A loaded template: its output for each context. */
  type Template = Context -> Rendered

  /** The part of `Twig_Environment` the view uses. */
  class Environment {
    var charset: string
    /** the templates the loader finds, by file name */
    const templates: map<string, Template>
    var functions: seq<Registration>
    var filters: seq<Registration>

    constructor (charset: string, templates: map<string, Template>)
      ensures this.charset == charset && this.templates == templates
      ensures functions == [] && filters == []
    {
      this.charset := charset;
      this.templates := templates;
      functions := [];
      filters := [];
    }
  }

  /** A plugin: whether its `onAdd` and its `onRender` hooks return normally or throw. */
  class Plugin {
    const addError: Option<Error>
    const renderError: Option<Error>

    constructor (addError: Option<Error>, renderError: Option<Error>)
      ensures this.addError == addError && this.renderError == renderError
    {
      this.addError := addError;
      this.renderError := renderError;
    }
  }

  /** A call the view makes on a collaborator. */
  datatype Call =
    | AddFunction(registration: Registration)
    | AddFilter(registration: Registration)
    | OnAdd(view: Twig, plugin: Plugin)
    | Load(name: string)
    | OnRender(view: Twig, plugin: Plugin, template: string, context: Context)
    | RenderTemplate(name: string, context: Context)
    | GetCharset
    | SetHeader(header: string, value: string)
    | GetBody
    | Write(text: string)

  // ---------------------------------------------------------------------
  // The render protocol, as a function of the view's state

  /** Index of the first plugin whose `onRender` throws, or the number of plugins. */
  function FirstFailure(ps: seq<Plugin>): (k: nat)
    ensures k <= |ps|
    ensures forall j :: 0 <= j < k ==> ps[j].renderError.None?
    ensures k < |ps| ==> ps[k].renderError.Some?
  {
    if ps == [] then 0
    else if ps[0].renderError.Some? then 0
    else 1 + FirstFailure(ps[1..])
  }

  /** How many plugins have their `onRender` called: up to and including the first that throws. */
  function Reached(ps: seq<Plugin>): nat
  {
    if FirstFailure(ps) < |ps| then FirstFailure(ps) + 1 else |ps|
  }

  /** One `onRender` call per plugin, in list order. */
  function HookCalls(view: Twig, ps: seq<Plugin>, template: string, context: Context): seq<Call>
  {
    seq(|ps|, i requires 0 <= i < |ps| => OnRender(view, ps[i], template, context))
  }

  /** The texts written to a body, in order, by a sequence of calls. */
  function Writes(calls: seq<Call>): seq<string>
  {
    if calls == [] then []
    else (if calls[0].Write? then [calls[0].text] else []) + Writes(calls[1..])
  }

  function HtmlContentType(charset: string): string
  {
    "text/html; charset=" + charset
  }

  /** The calls `render` makes, what it returns, and what it writes to the body. */
  datatype Rendering = Rendering(trace: seq<Call>, result: Result<Response>, written: seq<string>)

  function RenderSpec(view: Twig, response: Response, file: string, ps: seq<Plugin>, context: Context,
                      templates: map<string, Template>, charset: string): (r: Rendering)
    ensures |r.trace| > 0 && r.trace[0] == Load(file)
    ensures |r.written| <= 1 && (r.result.Err? ==> r.written == [])
  {
    if file !in templates then
      Rendering([Load(file)], Err(TemplateNotFound(file)), [])
    else if FirstFailure(ps) < |ps| then
      var k := FirstFailure(ps);
      Rendering([Load(file)] + HookCalls(view, ps[..k + 1], file, context), Err(ps[k].renderError.value), [])
    else
      var before := [Load(file)] + HookCalls(view, ps, file, context) + [RenderTemplate(file, context)];
      match templates[file](context)
      case Failed(e) => Rendering(before, Err(e), [])
      case Rendered(text) =>
        var header := HtmlContentType(charset);
        Rendering(before + [GetCharset, SetHeader(ContentType, header), GetBody, Write(text)],
                  Ok(WithHeader(response, ContentType, header)), [text])
  }

  lemma {:induction false} WritesAppend(a: seq<Call>, b: seq<Call>)
    ensures Writes(a + b) == Writes(a) + Writes(b)
  {
    if a == [] {
      assert a + b == b;
    } else {
      assert (a + b)[0] == a[0];
      assert (a + b)[1..] == a[1..] + b;
      WritesAppend(a[1..], b);
    }
  }

  lemma WritesSingle(c: Call)
    ensures Writes([c]) == if c.Write? then [c.text] else []
  {
    assert [c][1..] == [];
  }

  lemma {:induction false} HooksWriteNothing(view: Twig, ps: seq<Plugin>, template: string, context: Context)
    ensures Writes(HookCalls(view, ps, template, context)) == []
  {
    if ps != [] {
      assert HookCalls(view, ps, template, context)[1..] == HookCalls(view, ps[1..], template, context);
      HooksWriteNothing(view, ps[1..], template, context);
    }
  }

  /**
   * Plugins run after `load` and before the template: `onRender` is called
   * once per plugin, in insertion order, up to the first one that throws;
   * the template is rendered only when none throws.
   */
  lemma RenderHookOrder(view: Twig, response: Response, file: string, ps: seq<Plugin>, context: Context,
                        templates: map<string, Template>, charset: string)
    requires file in templates
    ensures var t := RenderSpec(view, response, file, ps, context, templates, charset).trace;
      |t| >= 1 + Reached(ps) && t[0] == Load(file)
      && (forall i :: 0 <= i < Reached(ps) ==> t[1 + i] == OnRender(view, ps[i], file, context))
      && (forall i :: 0 <= i < |t| && t[i].OnRender? ==> 1 <= i <= Reached(ps))
      && (FirstFailure(ps) < |ps| ==> |t| == 1 + Reached(ps))
      && (FirstFailure(ps) == |ps| ==> t[1 + |ps|] == RenderTemplate(file, context))
  {
    var k := FirstFailure(ps);
    if k < |ps| {
      assert ps[..k + 1][..] == ps[..k + 1];
    }
  }

  /**
   * `render` succeeds exactly when the template loads, no plugin throws and
   * the template renders; then the Content-Type header is set to
   * `text/html; charset=` plus the engine's charset, whatever was there, and
   * the output is written exactly once, as the last call. On every failure
   * nothing is written.
   */
  lemma RenderWritesOnce(view: Twig, response: Response, file: string, ps: seq<Plugin>, context: Context,
                         templates: map<string, Template>, charset: string)
    ensures var spec := RenderSpec(view, response, file, ps, context, templates, charset);
      Writes(spec.trace) == spec.written
      && (spec.result.Ok? <==>
            file in templates && FirstFailure(ps) == |ps| && templates[file](context).Rendered?)
      && (spec.result.Err? ==> spec.written == [])
      && (spec.result.Ok? ==>
            spec.written == [templates[file](context).text]
            && spec.trace[|spec.trace| - 1] == Write(spec.written[0])
            && spec.result.value.body == response.body
            && HasHeader(spec.result.value, ContentType)
            && Header(spec.result.value, ContentType) == HtmlContentType(charset))
  {
    var spec := RenderSpec(view, response, file, ps, context, templates, charset);
    if file !in templates {
      WritesSingle(Load(file));
    } else if FirstFailure(ps) < |ps| {
      var k := FirstFailure(ps);
      WritesAppend([Load(file)], HookCalls(view, ps[..k + 1], file, context));
      HooksWriteNothing(view, ps[..k + 1], file, context);
      WritesSingle(Load(file));
    } else {
      var before := [Load(file)] + HookCalls(view, ps, file, context) + [RenderTemplate(file, context)];
      WritesAppend([Load(file)], HookCalls(view, ps, file, context));
      WritesAppend([Load(file)] + HookCalls(view, ps, file, context), [RenderTemplate(file, context)]);
      HooksWriteNothing(view, ps, file, context);
      WritesSingle(Load(file));
      WritesSingle(RenderTemplate(file, context));
      match templates[file](context)
      case Failed(e) =>
      case Rendered(text) =>
        var header := SetHeader(ContentType, HtmlContentType(charset));
        var tail := [GetCharset, header, GetBody, Write(text)];
        WritesAppend(before, tail);
        assert tail == [GetCharset] + [header] + [GetBody] + [Write(text)];
        WritesAppend([GetCharset] + [header] + [GetBody], [Write(text)]);
        WritesAppend([GetCharset] + [header], [GetBody]);
        WritesAppend([GetCharset], [header]);
        WritesSingle(GetCharset);
        WritesSingle(header);
        WritesSingle(GetBody);
        WritesSingle(Write(text));
    }
  }

  // The four ways `render` ends, one lemma each.

  lemma RenderSpecNotFound(view: Twig, response: Response, file: string, ps: seq<Plugin>, context: Context,
                           templates: map<string, Template>, charset: string)
    requires file !in templates
    ensures RenderSpec(view, response, file, ps, context, templates, charset)
      == Rendering([Load(file)], Err(TemplateNotFound(file)), [])
  {
  }

  lemma RenderSpecHookFails(view: Twig, response: Response, file: string, ps: seq<Plugin>, context: Context,
                            templates: map<string, Template>, charset: string)
    requires file in templates && FirstFailure(ps) < |ps|
    ensures RenderSpec(view, response, file, ps, context, templates, charset)
      == Rendering([Load(file)] + HookCalls(view, ps[..Reached(ps)], file, context),
                   Err(ps[FirstFailure(ps)].renderError.value), [])
  {
  }

  lemma RenderSpecTemplateFails(view: Twig, response: Response, file: string, ps: seq<Plugin>, context: Context,
                                templates: map<string, Template>, charset: string)
    requires file in templates && FirstFailure(ps) == |ps| && templates[file](context).Failed?
    ensures RenderSpec(view, response, file, ps, context, templates, charset)
      == Rendering([Load(file)] + HookCalls(view, ps[..Reached(ps)], file, context) + [RenderTemplate(file, context)],
                   Err(templates[file](context).error), [])
  {
    assert ps[..Reached(ps)] == ps;
  }

  lemma RenderSpecRendered(view: Twig, response: Response, file: string, ps: seq<Plugin>, context: Context,
                           templates: map<string, Template>, charset: string)
    requires file in templates && FirstFailure(ps) == |ps| && templates[file](context).Rendered?
    ensures var text := templates[file](context).text;
      var header := HtmlContentType(charset);
      RenderSpec(view, response, file, ps, context, templates, charset)
      == Rendering([Load(file)] + HookCalls(view, ps[..Reached(ps)], file, context) + [RenderTemplate(file, context)]
                     + [GetCharset, SetHeader(ContentType, header), GetBody, Write(text)],
                   Ok(WithHeader(response, ContentType, header)), [text])
  {
    assert ps[..Reached(ps)] == ps;
  }

  // ---------------------------------------------------------------------
  // The view

  /** The argument of the constructor: an engine, an options array, or anything else. */
  datatype TwigArg =
    | Instance(env: Environment)
    | Options(path: Option<string>, charset: Option<string>, found: map<string, Template>)
    | Other(value: Value)

  class Twig {
    /** `$twig`, set once by the constructor (`getTwig`) */
    const twig: Environment
    /** `$plugins`, append-only (`getPlugins`) */
    var plugins: seq<Plugin>
    /** every call the view has made on its collaborators */
    ghost var calls: seq<Call>

    constructor (twig: Environment)
      ensures this.twig == twig && plugins == [] && calls == []
    {
      this.twig := twig;
      plugins := [];
      calls := [];
    }

    /**
     * `__construct($options)`: an engine is used as given; an options array
     * must hold `path` and yields a new engine over the templates found there
     * (charset from the `charset` option, Twig's default `UTF-8` otherwise);
     * anything else is refused.
     */
    static method New(arg: TwigArg) returns (r: Result<Twig>)
      requires arg.Other? ==> !arg.value.Array?
      ensures arg.Instance? ==> r.Ok? && r.value.twig == arg.env
      ensures arg.Options? && arg.path.None? ==> r == Err(BadMethodCall("'path' option is required"))
      ensures arg.Options? && arg.path.Some? ==>
        r.Ok? && fresh(r.value.twig) && r.value.twig.templates == arg.found
        && r.value.twig.charset == (if arg.charset.Some? then arg.charset.value else "UTF-8")
        && r.value.twig.functions == [] && r.value.twig.filters == []
      ensures arg.Other? ==>
        r == Err(InvalidArgument("Was expecting an array with options or a Twig_Environment, got a " + Describe(arg.value)))
      ensures r.Ok? ==> fresh(r.value) && r.value.plugins == [] && r.value.calls == []
    {
      match arg
      case Instance(env) =>
        var view := new Twig(env);
        r := Ok(view);
      case Options(path, charset, found) =>
        if path.None? {
          r := Err(BadMethodCall("'path' option is required"));
        } else {
          var env := new Environment(if charset.Some? then charset.value else "UTF-8", found);
          var view := new Twig(env);
          r := Ok(view);
        }
      case Other(value) =>
        r := Err(InvalidArgument("Was expecting an array with options or a Twig_Environment, got a " + Describe(value)));
    }

    /** `expose($name, $function, $as)`: registers one function or one filter with the engine, or nothing. */
    method Expose(name: Value, fn: Callable, kind: Value) returns (r: Result<Twig>)
      modifies twig`functions, twig`filters, this`calls
      ensures match Exposure(name, fn, kind)
        case Err(e) =>
          r == Err(e) && twig.functions == old(twig.functions) && twig.filters == old(twig.filters)
          && calls == old(calls)
        case Ok(reg) =>
          r == Ok(this)
          && twig.functions == old(twig.functions) + (if reg.SimpleFunction? then [reg] else [])
          && twig.filters == old(twig.filters) + (if reg.SimpleFilter? then [reg] else [])
          && calls == old(calls) + [if reg.SimpleFunction? then AddFunction(reg) else AddFilter(reg)]
    {
      var e := Exposure(name, fn, kind);
      if e.Err? {
        return Err(e.error);
      }
      if e.value.SimpleFunction? {
        calls := calls + [AddFunction(e.value)];
        twig.functions := twig.functions + [e.value];
      } else {
        calls := calls + [AddFilter(e.value)];
        twig.filters := twig.filters + [e.value];
      }
      return Ok(this);
    }

    /** `addPlugin($plugin)`: `onAdd` first; the plugin is appended only if that returns normally. */
    method AddPlugin(plugin: Plugin) returns (r: Result<Twig>)
      modifies this`plugins, this`calls
      ensures calls == old(calls) + [OnAdd(this, plugin)]
      ensures plugin.addError.Some? ==> r == Err(plugin.addError.value) && plugins == old(plugins)
      ensures plugin.addError.None? ==> r == Ok(this) && plugins == old(plugins) + [plugin]
    {
      calls := calls + [OnAdd(this, plugin)];
      if plugin.addError.Some? {
        return Err(plugin.addError.value);
      }
      plugins := plugins + [plugin];
      return Ok(this);
    }

    /** `invokePluginsOnRender($template, $context)`: each plugin's hook in order; the first exception stops the loop. */
    method InvokePluginsOnRender(template: string, context: Context) returns (r: Result<()>)
      modifies this`calls
      ensures calls == old(calls) + HookCalls(this, plugins[..Reached(plugins)], template, context)
      ensures FirstFailure(plugins) == |plugins| ==> r.Ok?
      ensures FirstFailure(plugins) < |plugins| ==> r == Err(plugins[FirstFailure(plugins)].renderError.value)
    {
      var i := 0;
      while i < |plugins|
        invariant 0 <= i <= |plugins|
        invariant forall j :: 0 <= j < i ==> plugins[j].renderError.None?
        invariant calls == old(calls) + HookCalls(this, plugins[..i], template, context)
      {
        var plugin := plugins[i];
        calls := calls + [OnRender(this, plugin, template, context)];
        assert HookCalls(this, plugins[..i + 1], template, context)
            == HookCalls(this, plugins[..i], template, context) + [OnRender(this, plugin, template, context)];
        if plugin.renderError.Some? {
          return Err(plugin.renderError.value);
        }
        i := i + 1;
      }
      assert plugins[..i] == plugins;
      return Ok(());
    }

    /** `render($response, $name, $context)`: resolves the name, then renders that file. */
    method Render(response: Response, name: string, context: Context) returns (r: Result<Response>)
      modifies this`calls, response.body
      ensures var spec := RenderSpec(this, response, Filename(name), plugins, context, twig.templates, twig.charset);
        calls == old(calls) + spec.trace
        && r == spec.result
        && response.body.chunks == old(response.body.chunks) + spec.written
    {
      var file := Filename(name);
      r := RenderFile(response, file, context);
    }

    /** The body of `render` once the template name is resolved to `file`. */
    method RenderFile(response: Response, file: string, context: Context) returns (r: Result<Response>)
      modifies this`calls, response.body
      ensures var spec := RenderSpec(this, response, file, plugins, context, twig.templates, twig.charset);
        calls == old(calls) + spec.trace
        && r == spec.result
        && response.body.chunks == old(response.body.chunks) + spec.written
    {
      ghost var ps, templates, charset := plugins, twig.templates, twig.charset;
      ghost var start := calls;
      calls := calls + [Load(file)];
      if file !in twig.templates {
        RenderSpecNotFound(this, response, file, ps, context, templates, charset);
        return Err(TemplateNotFound(file));
      }
      var template := twig.templates[file];
      var hooks := InvokePluginsOnRender(file, context);
      ghost var hookCalls := HookCalls(this, ps[..Reached(ps)], file, context);
      assert calls == start + ([Load(file)] + hookCalls);
      if hooks.Err? {
        RenderSpecHookFails(this, response, file, ps, context, templates, charset);
        return Err(hooks.error);
      }
      calls := calls + [RenderTemplate(file, context)];
      assert calls == start + ([Load(file)] + hookCalls + [RenderTemplate(file, context)]);
      var contents := template(context);
      if contents.Failed? {
        RenderSpecTemplateFails(this, response, file, ps, context, templates, charset);
        return Err(contents.error);
      }
      var newResponse := Respond(response, contents.text);
      RenderSpecRendered(this, response, file, ps, context, templates, charset);
      assert calls == start + ([Load(file)] + hookCalls + [RenderTemplate(file, context)]
                               + [GetCharset, SetHeader(ContentType, HtmlContentType(charset)), GetBody, Write(contents.text)]);
      return Ok(newResponse);
    }

    /** The end of `render`: the Content-Type header with the engine's charset, then one write of the output. */
    method Respond(response: Response, text: string) returns (r: Response)
      modifies this`calls, response.body
      ensures var header := HtmlContentType(twig.charset);
        calls == old(calls) + [GetCharset, SetHeader(ContentType, header), GetBody, Write(text)]
        && r == WithHeader(response, ContentType, header)
        && response.body.chunks == old(response.body.chunks) + [text]
    {
      calls := calls + [GetCharset];
      var header := HtmlContentType(twig.charset);
      calls := calls + [SetHeader(ContentType, header)];
      r := WithHeader(response, ContentType, header);
      calls := calls + [GetBody];
      r.body.Write(text);
      calls := calls + [Write(text)];
    }
  }
}
