/**
 * The three request handlers and `renderTemplate`, each a transition from
 * the store (and the request's title and body) to a new store and an
 * abstract response. What the environment does, a read or write error or a
 * failing template execution, arrives as an `Env` parameter.
 *
 * `Build` selects between the program as written and the program with its
 * two defects corrected: the nil page dereferenced before the error check
 * in the view handler, and templates looked up under a name they were
 * never registered under.
 */
module Handlers {
  import opened Basics
  import opened PageStore
  import opened Templates

  datatype Build = AsWritten | Corrected

  /** The environment's choices for one request. */
  datatype Env = Env(readFails: bool, write: WriteFault, execFails: bool)

  /** No read, write or template error. */
  const Clean := Env(false, NoFault, false)

  datatype Response =
    | Render(template: string, page: Page)  // 200: the named template filled with the page
    | Redirect(url: string)                 // 302 Found
    | Error500                              // 500 with the error text
    | NotFound                              // 404
    | Crash                                 // handler panicked: no response, connection dropped

  /** The store after a request and the response sent. */
  datatype Outcome = Outcome(fs: Store, response: Response)

  /**
   * `renderTemplate`: execute the template for screen `name` on `page`.
   * As written it looks up the file path, which is not a registered name;
   * corrected it looks up the base name, name + ".html".
   */
  function RenderTemplate(b: Build, name: string, page: Page, execFails: bool): (r: Response)
    ensures r.Render? || r == Error500
    ensures r.Render? <==> b == Corrected && (name == "edit" || name == "view") && !execFails
    ensures r.Render? ==> r.template == TemplateFile(name) && r.page == page
  {
    var key := if b == AsWritten then TemplateFile(name) else name + ".html";
    assert key in ParsedNames() <==> b == Corrected && (name == "edit" || name == "view") by {
      ParsedNamesAre();
      TemplatePathNeverRegistered(name);
      RegisteredScreens(name);
    }
    if key in ParsedNames() && !execFails then Render(TemplateFile(name), page) else Error500
  }

  /** `viewHandler`. */
  function ViewHandler(b: Build, fs: Store, title: string, env: Env): (o: Outcome)
    ensures o.fs == fs
    ensures o.response == Crash <==> b == AsWritten && (env.readFails || FileName(title) !in fs)
    ensures o.response.Redirect? <==> b == Corrected && (env.readFails || FileName(title) !in fs)
    ensures o.response.Redirect? ==> o.response.url == "/edit/" + title
    ensures o.response.Render? <==> b == Corrected && !env.readFails && FileName(title) in fs && !env.execFails
    ensures o.response.Render? ==> o.response == Render("tmpl/view.html", Page(title, fs[FileName(title)]))
    ensures o.response != NotFound
  {
    var loaded := LoadPage(fs, title, env.readFails);
    if loaded.None? then
      // As written, the title of the nil page is read before the error check.
      match b
      case AsWritten => Outcome(fs, Crash)
      case Corrected => Outcome(fs, Redirect("/edit/" + title))
    else
      TemplateFileNames();
      Outcome(fs, RenderTemplate(b, "view", loaded.value, env.execFails))
  }

  /** `editHandler`: a missing page is edited as a new, empty one. */
  function EditHandler(b: Build, fs: Store, title: string, env: Env): (o: Outcome)
    ensures o.fs == fs
    ensures o.response.Render? || o.response == Error500
    ensures o.response.Render? <==> b == Corrected && !env.execFails
    ensures o.response.Render? ==> o.response.template == "tmpl/edit.html" && o.response.page.title == title
    ensures o.response.Render? && !env.readFails && FileName(title) in fs ==>
              o.response.page.body == fs[FileName(title)]
    ensures o.response.Render? && (env.readFails || FileName(title) !in fs) ==> o.response.page.body == []
  {
    var loaded := LoadPage(fs, title, env.readFails);
    var page := if loaded.None? then Page(title, []) else loaded.value;
    TemplateFileNames();
    Outcome(fs, RenderTemplate(b, "edit", page, env.execFails))
  }

  /** `saveHandler`: store the submitted body, then send the client to the view screen. */
  function SaveHandler(fs: Store, title: string, body: seq<byte>, env: Env): (o: Outcome)
    ensures o.response == Redirect("/view/" + title) <==> env.write == NoFault
    ensures env.write != NoFault ==> o.response == Error500
    ensures env.write == NoFault ==> LoadPage(o.fs, title, false) == Some(Page(title, body))
    ensures env.write == OpenFails ==> o.fs == fs
    ensures forall k :: k != FileName(title) ==> SameFile(fs, o.fs, k)
  {
    var saved := Save(fs, Page(title, body), env.write);
    if saved.failed then Outcome(saved.fs, Error500) else Outcome(saved.fs, Redirect("/view/" + title))
  }
}
