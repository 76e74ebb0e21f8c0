# jasny/view in Dafny

A model of the two view adapters of the PHP library `jasny/view`. Both render a
named template into a PSR-7 response.

- The **Twig view** (`src/View/Twig.php`) does six things:
  - It turns a template name into a Twig file name (`getFilename`).
  - It validates the names of exposed functions and filters (`assertViewVariableName`).
  - It registers those functions and filters with the engine (`expose`).
  - It keeps an append-only list of plugins (`addPlugin`).
  - To render, it loads the template, calls every plugin's `onRender` hook in
    order, renders the template, and sets `Content-Type: text/html; charset=`
    plus the engine's charset. It then writes the output to the response body
    once.
  - Its constructor accepts either an engine or an options array with `path`.
- The **PHP view** (`src/View/PHP.php`) does four things:
  - It turns a name into a script path under a root directory (`getFilePath`).
  - It refuses names containing `..` and names whose file does not exist (`assertFile`).
  - It "exposes" only functions that already exist under their own name (`expose`).
  - Its `output` sets `Content-Type: text/html` when no Content-Type is
    present. It runs the script inside an output buffer whose handler writes
    to the response body.

Modules:

- `Php`: PHP values as far as the views inspect them (`gettype`, class names),
  callables and their truthiness, the exceptions, and `Result` for "returns or throws".
- `Paths`: `rtrim`/`ltrim` with one character, `basename` as `pathinfo` computes
  it, `pathinfo($name, PATHINFO_EXTENSION)`, the `strpos($name, '..')` test, and
  path segments equal to `..`.
- `Psr7`: a body `Stream` class whose `write` appends a chunk, and an immutable
  `Response` value whose headers are keyed by case-folded name.
- `TwigView`: the Twig view as a class `Twig`. Its `plugins` list and the
  engine's function and filter lists are fields updated in place. A ghost
  `calls` sequence logs, in order, the calls the view makes on its
  collaborators: `addFunction` or `addFilter` from `expose`; `onAdd` with the
  view from `addPlugin`; and from `render`, `load`, then `onRender` with the
  view for each plugin reached, then the template's `render`, `getCharset`,
  the header, `getBody` and `write`. `render` is proved against `RenderSpec`,
  which gives the calls made, the result and the body writes for every outcome.
- `PhpView`: the PHP view as a class `PHP`. PHP's output-buffer stack is the
  class `OutputBuffers`. The file system is a map from path to script, and a
  script is its output for a context, possibly followed by an exception.

Points where the model follows the code and says so:

- **The PHP view has no `render`.** `ViewInterface` declares
  `render($response, $name, $context)` (src/ViewInterface.php:30), and the
  tests call `render` on the PHP view (tests/View/PHPTest.php:139). The class
  defines that operation as `output` (src/View/PHP.php:142). It is modelled
  under that name, `PhpView.PHP.Output`. As written, the class does not
  implement the interface. PHP refuses a non-abstract class that leaves an
  interface method unimplemented with a fatal error when the class is
  declared, so as written `new PHP(...)` never runs; the model describes the
  class as it would behave if that error were not raised.
- **Partial output on a throwing script.** `ob_end_clean` in the `finally`
  block (src/View/PHP.php:156-160) invokes the buffer's handler with whatever
  the script emitted. The handler is the closure that writes to the
  body, so the body gets exactly one write even when the script throws, and
  the exception then propagates. `Output` states this: the write of
  `run.output` happens on both the `Completed` and the `Threw` path.
- **The name pattern accepts one trailing newline.** `/^[a-z]\w*$/i` has no
  `D` modifier, so `$` also matches before a final `"\n"`. `MatchesNamePattern`
  keeps this behaviour: `"foo\n"` is accepted and `"foo\n\n"` is not.
- **`pathinfo` looks through trailing slashes.** `"foo.bar/"` has the extension
  `bar`, so both views keep it unchanged, with no `index` file appended.

## Model

| member | source | states |
|---|---|---|
| `Php.TypeName` | src/View/Twig.php:128 | `gettype`: the type names PHP reports, `double` for a float; the name is `object` exactly for objects |
| `Php.Describe` | src/View/Twig.php:37-38 | the type part of the error messages: it always ends in the `gettype` name, and for an object starts with the class name and a space |
| `Php.Truthy` | src/View/Twig.php:122 | defines PHP truthiness of the `$function` argument: null, `""` and `"0"` are falsy; `TwigView.Exposure` states that a falsy callable is replaced by the name |
| `Paths.TrimEnd` | src/View/PHP.php:92 | `rtrim(s, '/')` is a prefix of `s` that does not end in `/`, and only `/` was removed |
| `Paths.TrimStart` | src/View/PHP.php:92 | `ltrim(s, '/')` is a suffix of `s` that does not start with `/`, and only `/` was removed |
| `Paths.AfterLast` | src/View/Twig.php:192 | the text after the last separator is the longest separator-free suffix |
| `Paths.Basename` | src/View/PHP.php:88 | the last segment `pathinfo` takes the extension from: it has no slash, and it is non-empty unless the path is only slashes; `ExtensionIgnoresTrailingSlash` and `NoDotNoExtension` characterise the extension taken from it |
| `Paths.Extension` | src/View/Twig.php:192 | a `pathinfo` extension never contains a dot or a slash |
| `Paths.ExtensionOfAppended` | src/View/Twig.php:193 | appending a slash-free suffix that has a dot fixes the extension to what follows the suffix's last dot |
| `Paths.ExtensionIgnoresTrailingSlash` | src/View/PHP.php:88 | `pathinfo` gives `name/` the same extension as `name` |
| `Paths.NoDotNoExtension` | src/View/PHP.php:88 | a name without a dot has no extension |
| `Paths.TrimStartKeepsSegments` | src/View/PHP.php:92 | removing leading slashes never creates a `..` path segment |
| `Paths.ContainsDotDot` | src/View/PHP.php:103 | defines `strpos($name, '..') !== false` as "some index holds two dots"; `PhpView.AssertFile` and `PhpView.FilePathStaysInRoot` state what refusing such names achieves |
| `Paths.DirectoryHasNoExtension` | src/View/PHP.php:88 | a dot-free name followed by `/` has no extension |
| `Psr7.WithHeader` | src/View/Twig.php:218 | `withHeader` sets the header to the value, keeps the body, and leaves every other header as it was |
| `Psr7.HasHeader` | src/View/PHP.php:146 | defines `hasHeader` as a lookup under the case-folded name; `Psr7.WithHeader` and `PhpView.WithDefaultContentType` state how it changes |
| `Psr7.Stream.Write` | src/View/Twig.php:219 | `write` appends exactly the given text to the body, as one chunk |
| `TwigView.Filename` | src/View/Twig.php:190-197 | defines `getFilename`; its contract states that the name is a prefix of the result, and `FilenameSpec`, `FilenameIdempotent` and the lemmas below characterise it |
| `TwigView.FilenameSpec` | src/View/Twig.php:190-197 | a name with an extension is kept; otherwise `index.html.twig` is appended after a trailing `/` and `.html.twig` in all other cases (these clauses go through the cases of the definition); what it adds beyond them is that the result always has an extension, and `twig` when one was added |
| `TwigView.FilenameIdempotent` | src/View/Twig.php:192-196 | resolving an already resolved name changes nothing |
| `TwigView.FilenameOfPlainName` | src/View/Twig.php:193 | a dot-free name not ending in `/` gets `.html.twig` (`foo`, `foo/bar/zoo`) |
| `TwigView.FilenameOfDirectory` | src/View/Twig.php:193 | a dot-free name followed by `/` gets `index.html.twig` (`foo/bar/`) |
| `TwigView.FilenameKeepsExtension` | src/View/Twig.php:192 | `base.ext` and `base.ext/` are returned unchanged |
| `TwigView.MatchesNamePattern` | src/View/Twig.php:104 | defines the match of `/^[a-z]\w*$/i`: a letter, then word characters to the end or to one final newline; `NamePatternAccepts` characterises it |
| `TwigView.WordsToEndSpec` | src/View/Twig.php:104 | the matcher's scan from a position accepts exactly word characters to the end, or to one final newline |
| `TwigView.NamePatternAccepts` | src/View/Twig.php:104 | `/^[a-z]\w*$/i` matches exactly the identifiers (a letter, then word characters) and the identifiers followed by one `\n` |
| `TwigView.NamePatternExamples` | src/View/Twig.php:104 | `strlen`, `string_length` and `foo` pass; `/abc/def`, `1abc` and the empty name fail; `foo\n` passes and `foo\n\n` fails |
| `TwigView.CheckName` | src/View/Twig.php:97-107 | a name passes iff it is a string matching the pattern; a non-string is refused with its type (and class) in the message, and a bad string with the name in quotes |
| `TwigView.FloatNameRefused` | src/View/Twig.php:99-101 | a float name is refused with "Expected name to be a string, not a double" |
| `TwigView.Exposure` | src/View/Twig.php:117-133 | `expose` registers iff the name passes and `as` is `'function'` or `'filter'`; the registration has the name and the callable `$function ?: $name`; the name check comes first; every error is an `InvalidArgumentException` |
| `TwigView.Twig.constructor` | src/View/Twig.php:41 | the view holds the given engine, no plugins and an empty call log |
| `TwigView.Twig.Expose` | src/View/Twig.php:117-133 | a registered function is appended to the engine's functions and a filter to its filters, and the one `addFunction` or `addFilter` call is logged; on an error nothing is registered and nothing is logged |
| `TwigView.Twig.New` | src/View/Twig.php:32-42 | an engine is used as given; an options array without `path` throws `BadMethodCallException`; other options build a new engine with the charset option or `UTF-8`; anything else throws with its type in the message |
| `TwigView.Twig.AddPlugin` | src/View/Twig.php:142-148 | `onAdd` is called first, with the view, and logged; the plugin is appended at the end only if `onAdd` returns normally, otherwise the list is unchanged and the exception propagates |
| `TwigView.FirstFailure` | src/View/Twig.php:168-170 | the index of the first plugin whose hook throws: every plugin before it returns normally |
| `TwigView.Twig.InvokePluginsOnRender` | src/View/Twig.php:166-171 | `onRender` is called on each plugin in list order, up to and including the first one that throws, whose exception is returned |
| `TwigView.HtmlContentType` | src/View/Twig.php:218 | defines the header value `text/html; charset=` plus the charset; `RenderWritesOnce` and `Twig.Respond` state that it replaces any earlier Content-Type |
| `TwigView.RenderSpec` | src/View/Twig.php:209-221 | the calls, result and body writes of `render` for each outcome; its contract states that `load` is always the first call, that at most one write happens and that none happens on a failure; `RenderHookOrder` and `RenderWritesOnce` characterise the rest |
| `TwigView.RenderHookOrder` | src/View/Twig.php:209-216 | `load` comes first, then exactly one `onRender` per plugin reached, in list order, and then the template's `render` when no hook threw |
| `TwigView.RenderWritesOnce` | src/View/Twig.php:216-221 | `render` succeeds iff the template loads, no hook throws and the template renders; then the Content-Type is `text/html; charset=` plus the engine's charset whatever it was before, and the output is written once as the last call; on every failure nothing is written |
| `TwigView.Twig.Render` | src/View/Twig.php:207-222 | the calls made, the result and the body writes are those `RenderSpec` gives for the resolved file name |
| `TwigView.Twig.RenderFile` | src/View/Twig.php:211-221 | the same, for a file name that is already resolved |
| `TwigView.Twig.Respond` | src/View/Twig.php:218-219 | the response gets `Content-Type: text/html; charset=` plus the engine's charset, the output is appended to its body as one chunk, and `getCharset`, the header, `getBody` and `write` are logged in that order |
| `PhpView.ScriptName` | src/View/PHP.php:88-90 | defines the name part of `getFilePath`; `ScriptNameSpec`, `ScriptNameExtension`, `ScriptNameIdempotent` and the lemmas below characterise it |
| `PhpView.FilePath` | src/View/PHP.php:86-93 | defines `getFilePath`; `FilePathJoin` and `FilePathStaysInRoot` characterise it |
| `PhpView.ScriptNameSpec` | src/View/PHP.php:88-90 | a name with an extension is kept; otherwise `index.` plus the extension is appended after a trailing `/`, and `.` plus the extension in all other cases (these clauses go through the cases of `ScriptName`) |
| `PhpView.ScriptNameExtension` | src/View/PHP.php:88-90 | with a slash-free extension, a completed name has the extension's own extension (`html.php` gives `php`) |
| `PhpView.ScriptNameOfPlainName` | src/View/PHP.php:89 | a dot-free name not ending in `/` gets `.` plus the extension (`foo` gives `foo.php`, or `foo.html.php` with the extension `html.php`) |
| `PhpView.ScriptNameOfDirectory` | src/View/PHP.php:89 | a dot-free name followed by `/` gets `index.` plus the extension (`foo/` gives `foo/index.php`) |
| `PhpView.ScriptNameKeepsExtension` | src/View/PHP.php:88 | `base.e` and `base.e/` are kept as they are (`foo.phtml`) |
| `PhpView.ScriptNameIdempotent` | src/View/PHP.php:88-90 | with a non-empty, slash-free extension not ending in a dot, resolving a resolved name changes nothing |
| `PhpView.Stem` | src/View/PHP.php:89 | what goes between an extension-less name and the extension ends in a dot, has no slash, and is a lone dot exactly when no `index` is added |
| `PhpView.FilePathJoin` | src/View/PHP.php:92 | the path is the root without trailing slashes, then exactly one `/`, then the name without leading slashes; another slash on the root changes nothing |
| `PhpView.FilePathStaysInRoot` | src/View/PHP.php:86-93 | for a name without `..`, and an extension that is non-empty, slash-free and does not start with a dot, the part after the root has no `..` segment |
| `PhpView.AssertFile` | src/View/PHP.php:101-112 | a name containing `..` is refused with `InvalidArgumentException` before anything else; otherwise a missing file gives `RuntimeException` naming the resolved path (these two clauses go through the cases of the definition); the check passes iff neither applies, and `AssertedFileInsideRoot` states what a passing file satisfies |
| `PhpView.AssertedFileInsideRoot` | src/View/PHP.php:101-112 | a file that passes the check exists, starts with the trimmed root and a slash, and has no `..` segment after it |
| `PhpView.PHP.constructor` | src/View/PHP.php:28-39 | the view keeps the given root path and extension |
| `PhpView.PHP.New` | src/View/PHP.php:28-39 | without `path` the constructor throws `BadMethodCallException`; otherwise `path` is kept and `ext` is the option or `php` |
| `PhpView.MayExpose` | src/View/PHP.php:72 | defines the condition of `expose`: the function exists and `$function` is null or the name itself; `PhpView.PHP.Expose` states its result in these terms |
| `PhpView.PHP.Expose` | src/View/PHP.php:70-77 | returns the view iff the function exists and `$function` is null or equal to the name; otherwise `BadMethodCallException` |
| `PhpView.WithDefaultContentType` | src/View/PHP.php:146-148 | an existing Content-Type is kept and the response is unchanged; otherwise Content-Type becomes `text/html` and every other header is kept |
| `PhpView.DefaultContentTypeIdempotent` | src/View/PHP.php:146-148 | applying the header rule twice is applying it once |
| `PhpView.OutputBuffers.Start` | src/View/PHP.php:152-154 | `ob_start` pushes an empty buffer whose handler writes to the body |
| `PhpView.OutputBuffers.Emit` | src/View/PHP.php:157 | what the running script prints is appended to the innermost buffer and reaches no handler yet; the handlers are unchanged |
| `PhpView.OutputBuffers.EndClean` | src/View/PHP.php:159 | `ob_end_clean` pops the innermost buffer and hands its contents to its handler once |
| `PhpView.PHP.Capture` | src/View/PHP.php:152-160 | the capture is closed on every path: the body gets one write of the emitted text, and the buffer stack is left as it was |
| `PhpView.PHP.Output` | src/View/PHP.php:142-163 | a refused or missing file throws, writes nothing and opens no buffer; otherwise the script's output is written to the body once, on success and on a throw alike; the result is the response with the default Content-Type, or the script's exception |

## Left out

- `createTwigEnvironment` and `addLoaderPaths` (src/View/Twig.php:50-78): the loader is replaced by the map of templates it would find. Only the required `path` check and the charset are kept. The Twig library's own behaviour there is not modelled: the filesystem loader throws a loader error for a `path` that is not a directory, so the `Options` case always succeeds here; and the engine upper-cases the `charset` option, which is kept as given here.
- `TwigView.Twig.New`: other engine options, and `path` values given as arrays of namespaced paths, are not modelled. An array argument always arrives as `Options`, which is why the constructor requires that `Other` does not hold an array.
- `addDefaultExtensions` (src/View/Twig.php:179-182): it only calls `addPlugin` with a `DefaultTwigExtensions` plugin, which belongs to the Twig extension classes and is not part of this model.
- The plugins `TwigAssetic` and `DefaultTwigExtensions`: they call into Assetic and the Twig extension classes. A plugin is modelled only by whether its `onAdd` and `onRender` return or throw.
- Plugin hooks that change the view: hooks receive the view, but here they cannot change the plugin list or the engine.
- `getTwig`, `getPlugins`, `getPath` and `getExt`: these are the fields `twig`, `plugins`, `path` and `ext` themselves.
- `runScript` (src/View/PHP.php:120-132): `extract` and `include` run arbitrary PHP. A script is an input that maps a context to its output and an optional exception. The isolation of `$name` and `$context` from the script is not modelled.
- Output handler flags and nested output inside the handler: an output buffer is only "opened with a handler writing to the body" and "closed, handing its contents to the handler".
- `file_exists` and `function_exists`: the existing files are the keys of the script map, and the defined functions are a given set. Directories that pass `file_exists` and case-insensitive function names are not modelled.
- `PhpView.PHP.Expose`: `$name` is a string here. Non-string names passed to `function_exists` are not modelled.
- `Psr7.WithHeader`: PSR-7's multi-valued headers are not modelled; a header has one value and the body is a field. The PHP view's `getBody` call (src/View/PHP.php:150) is not logged; the Twig view's is.
- The call log: `getTwig()` calls, the engine construction in `createTwigEnvironment` and the `Twig_SimpleFunction`/`Twig_SimpleFilter` objects are not logged. The view passed to `onAdd` and `onRender` is the view object itself, logged as such.
- `TwigView.Twig.New`: an engine object, including one of a subclass of `Twig_Environment` (accepted by the `instanceof` test at src/View/Twig.php:36), arrives only as `Instance`. A `Value` of `Other` is never an engine, so `Other(Object("Twig_Environment"))` is refused as a non-engine.
- `Php.Value`: PHP resources have no case, so `expose` or the Twig constructor given a resource (`gettype` "resource") cannot be stated. Floats are the `Float` case and are described as `double`.
- Default arguments are passed explicitly: `$function = null` is `NoCallable`, `$as = 'function'` is `Str("function")`, and `$context = []` is `map[]`.
- Twig template compilation, escaping and the engine's own errors other than a missing template or a throwing `render`.
- `TwigView.Exposure`: the `Twig_SimpleFunction`/`Twig_SimpleFilter` options and the engine's own checks on names are not modelled. A registration is a name and a callable.
