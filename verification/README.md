# Wiki server request handling, modelled in Dafny

A model of the request-handling core of a small wiki server
(`wiki/wiki.go`): the path validator and handler wrapper, the page store
that keeps each page in the file `<title>.txt`, and the view, edit and save
handlers with template rendering. Every handler is a pure function from a
store (a map from file name to file contents) and a title to a new store and
an abstract response (`Render(template, page)`, `Redirect(url)`,
`Error500`, `NotFound` or `Crash`).

Modules, in the order the request flows:

- `Basics`: `Option` (a Go result that may be nil) and `byte`.
- `Router`: `validPath`, the anchored pattern `^/(edit|save|view)/([a-zA-Z0-9]+)$`,
  as a hand parser proved equal to the relational reading `Matches`.
- `PageStore`: `Page`, `Page.save` and `loadPage` over a `map<string, seq<byte>>`.
  Write failures are a `WriteFault` parameter: the open fails (nothing
  changes), or the write fails after the truncation (a prefix of the body is
  left). Read failures are a flag, and every read failure gives the nil page.
- `Templates`: what the handlers rely on from the template library. Parsing
  the two template files registers each under its base name, and execution
  looks a template up by its registered name.
- `Handlers`: `renderTemplate`, `viewHandler`, `editHandler`, `saveHandler`.
  An `Env` value carries the environment's choices for one request: read
  error, write fault, template-execution error.
- `Server`: `makeHandler`. `Run` applies a sequence of requests one after
  another to one store; it is used to state properties of whole runs.

The program has two defects (see Findings). The handlers therefore take a
`Build`: `AsWritten` behaves as the code does, and `Corrected` behaves as
the code's own branches show it intends. A missing page is meant to
redirect to its edit screen (wiki/wiki.go:42), and a loaded page is meant
to be rendered (wiki/wiki.go:45). Both are proved for `Corrected`. For
`AsWritten`, the model proves what happens instead: the view handler
crashes on a missing page, and every render answers 500.

## Model

| member | source | states |
|---|---|---|
| `Router.ValidPath` | wiki/wiki.go:80 | any submatch it returns is a full, anchored match of the path with those two captures |
| `Router.ValidPathComplete` | wiki/wiki.go:80 | every path of the form "/" + op + "/" + t with t in [a-zA-Z0-9]+ is accepted, with exactly op and t captured |
| `Router.ValidPathRejects` | wiki/wiki.go:80 | a path is rejected if and only if no op and title match it |
| `Router.ShapeDeterminesCaptures` | wiki/wiki.go:80 | a path of the route shape determines both the operation and the title, so the pattern leaves no slack |
| `Router.BadTitleRejected` | wiki/wiki.go:80 | on each of the three routes, a title outside [a-zA-Z0-9]+ (empty, or with any other character) is rejected |
| `Router.RegisteredPrefixAgrees` | wiki/wiki.go:90-97 | a path under the prefix a wrapper is registered at can only match with that same operation, so ignoring the first submatch is sound |
| `PageStore.Save` | wiki/wiki.go:23-26 | success exactly when the write has no fault; on success the page's file holds the body; a failed open changes nothing; a late failure leaves a prefix of the body; every other file is untouched |
| `PageStore.LoadPage` | wiki/wiki.go:28-35 | the nil page exactly when the file is absent or unreadable; otherwise a page with the requested title and the file's contents |
| `PageStore.FileNameInjective` | wiki/wiki.go:29 | distinct titles map to distinct file names |
| `PageStore.PageFileIff` | wiki/wiki.go:29 | a title's file name is a page file (routable stem + ".txt") exactly when the title is routable |
| `PageStore.FileNameSafe` | wiki/wiki.go:24 | the file name of a routable title contains no '/' and exactly one '.', the one starting ".txt" |
| `PageStore.SaveLoadRoundTrip` | wiki/wiki.go:23-35 | loading a page after a successful save returns the saved title and body |
| `PageStore.LastWriteWins` | wiki/wiki.go:23-26 | a successful save leaves the same store whatever an earlier save to that title wrote, even a failed one |
| `PageStore.SaveFrame` | wiki/wiki.go:23-35 | saving one title leaves what every other title loads unchanged |
| `Templates.BaseName` | wiki/wiki.go:68 | the result is a suffix of the path without '/', preceded by a '/' unless it is the whole path |
| `Templates.BaseNameOfTemplateFile` | wiki/wiki.go:68-71 | the file "tmpl/" + name + ".html" is registered under name + ".html" |
| `Templates.ParsedNamesAre` | wiki/wiki.go:68 | the parsed templates are registered as exactly "edit.html" and "view.html" |
| `Templates.TemplatePathNeverRegistered` | wiki/wiki.go:71-73 | the name the code looks up, "tmpl/" + name + ".html", is never a registered name |
| `Templates.RegisteredScreens` | wiki/wiki.go:73 | looking up name + ".html" finds a template exactly for the screens "edit" and "view" |
| `Handlers.RenderTemplate` | wiki/wiki.go:70-78 | the result is a render or a 500; a render happens exactly in the corrected build, for the edit or view screen, when execution does not fail; it names the screen's template file and carries the page unchanged |
| `Handlers.ViewHandler` | wiki/wiki.go:37-46 | the store is unchanged; a crash happens exactly when the page cannot be loaded in the as-written build; a redirect to "/edit/" + title happens exactly when it cannot be loaded in the corrected build; a render shows the stored page under "tmpl/view.html"; never a 404 |
| `Handlers.EditHandler` | wiki/wiki.go:48-55 | the store is unchanged; a missing page is not an error; it renders "tmpl/edit.html" exactly when the template is found and executes; the page has the title and the stored body, or an empty body if none could be read |
| `Handlers.SaveHandler` | wiki/wiki.go:57-66 | it redirects to "/view/" + title exactly when the write succeeds, and answers 500 otherwise; after success the title loads the submitted body; no file other than the title's changes |
| `Server.MakeHandler` | wiki/wiki.go:82-92 | the response is 404 exactly when no operation and title match the path, and then the store is unchanged |
| `Server.MakeHandlerPassesTitle` | wiki/wiki.go:84-90 | on a matching path the wrapped handler runs with exactly the captured title and its result is the response |
| `Server.MakeHandlerFrame` | wiki/wiki.go:80-90 | a request changes no file that is not the page file of a routable title |
| `Server.RunFrame` | wiki/wiki.go:80-92 | no sequence of requests changes a file that is not a page file, such as a template file |
| `Server.ReadOnlyRun` | wiki/wiki.go:37-55 | requests that reach only the view and edit wrappers leave the store unchanged |
| `Server.SaveRequest` | wiki/wiki.go:57-65 | a fault-free POST to "/save/" + t redirects to "/view/" + t and t then loads the submitted body |
| `Server.ViewRequest` | wiki/wiki.go:82-90 | a request to "/view/" + t runs the view handler on t |
| `Server.EditRequest` | wiki/wiki.go:82-90 | a request to "/edit/" + t runs the edit handler on t |
| `Server.SaveThenViewRenders` | wiki/wiki.go:37-65 | corrected build: save then view responds with a redirect, then a render of exactly the saved title and body |
| `Server.SaveThenViewAsWritten` | wiki/wiki.go:57-78 | as written: save then view stores the page but the view answers 500 |
| `Server.MissingPageFlow` | wiki/wiki.go:38-54 | corrected build: viewing a missing page redirects to its edit screen, which offers the page with an empty body |
| `Server.MissingPageCrashes` | wiki/wiki.go:38-42 | as written: viewing a missing page crashes instead of redirecting |
| `Server.SaveHelloViewTest` | wiki/wiki.go:57-65 | saving body "Hello" to "Test" and then viewing "Test" renders title "Test" and body "Hello" |

## Findings

| source | as written | input that shows it | evidently intended | confidence | as-written member | corrected member |
|---|---|---|---|---|---|---|
| wiki/wiki.go:38-43 | `page.Title` is read on line 39 before `err` is checked on line 40. `loadPage` returns a nil page on error, so the handler panics | GET /view/T when T.txt does not exist | redirect to /edit/T | high; not executed | `Server.MissingPageCrashes` | `Server.MissingPageFlow` |
| wiki/wiki.go:68-73 | the files are parsed under their base names "edit.html" and "view.html", but the lookup uses "tmpl/edit.html" and "tmpl/view.html", so every render answers 500 | GET /edit/T for any T | execute the template registered as name + ".html" | medium; not executed; the template files are not part of this model, and a `{{define "tmpl/edit.html"}}` inside them would hide the defect | `Templates.TemplatePathNeverRegistered` | `Server.SaveThenViewRenders` |

## Left out

- `main`, the `-addr` flag, listening on a port and writing `final-port.txt`: process and network set-up.
- The request multiplexer: its prefix routing appears only as the hypothesis of `Router.RegisteredPrefixAgrees`. Its path cleaning and redirects are not modelled, so the model's input is the path a wrapper receives.
- Real file I/O and permission bits: they are replaced by the map and the `WriteFault`/read-failure parameters. Error message texts are not modelled, so a 500 carries no text.
- Template parsing, execution and HTML escaping. A render is the value `Render(template file, page)`, and an execution failure is a parameter. The parsed templates are assumed to load at start-up.
- Form decoding and the wire format of redirects, 404s and 500s: the body arrives as bytes and responses are constructors. What a client receives after a panic is modelled only as `Crash`.
- Logging to the console: it is a side effect only, and it does not change responses.
- Concurrent requests and the unsynchronised race between two saves of one title: `Run` handles requests one at a time.
- The store assumes that distinct names are distinct regular files: names are case-sensitive and no name is a reserved device name. On a case-insensitive filesystem, saving "Test" overwrites the file that "test" loads. On Windows, the title "NUL" maps to a device, not a file. So `PageStore.SaveFrame`, `Server.MakeHandlerFrame`, `Server.RunFrame` and the save/load round trip hold only on a filesystem with these properties.
- Text encoding: paths and titles are sequences of characters. Non-ASCII characters never match the title class, so they cannot reach the store.
- Templates.BaseName: does not model the special cases of Go's base-name function for an empty path or trailing slashes, because the two template paths have neither.
