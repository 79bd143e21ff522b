/**
 * `makeHandler`: the wrapper that validates the request path, answers 404
 * when it does not match, and otherwise calls the wrapped handler with the
 * title it captured. A run of the server is a sequence of such requests
 * handled one after another against one store.
 */
module Server {
  import opened Basics
  import opened Router
  import opened PageStore
  import opened Templates
  import opened Handlers

  /** The handler function a wrapper was made from. */
  datatype HandlerFn = ViewFn | EditFn | SaveFn

  /** The request's URL path and its form value "body" (only the save handler reads it). */
  datatype Request = Request(path: string, body: seq<byte>)

  /** Call handler `fn` with the captured title. */
  function Invoke(b: Build, fn: HandlerFn, fs: Store, title: string, body: seq<byte>, env: Env): Outcome {
    match fn
    case ViewFn => ViewHandler(b, fs, title, env)
    case EditFn => EditHandler(b, fs, title, env)
    case SaveFn => SaveHandler(fs, title, body, env)
  }

  /**
   * The handler `makeHandler(fn)` returns, applied to one request. The
   * first submatch (the operation) is not consulted; only the title is.
   */
  function MakeHandler(b: Build, fn: HandlerFn, fs: Store, req: Request, env: Env): (o: Outcome)
    ensures o.response == NotFound <==> ValidPath(req.path).None?
    ensures ValidPath(req.path).None? ==> o.fs == fs
    ensures o.response == NotFound <==> forall op, t :: !Matches(req.path, op, t)
  {
    ValidPathRejects(req.path);
    match ValidPath(req.path)
    case None => Outcome(fs, NotFound)
    case Some(m) => Invoke(b, fn, fs, m.title, req.body, env)
  }

  /** A matching path hands the wrapped handler exactly the captured title. */
  lemma MakeHandlerPassesTitle(b: Build, fn: HandlerFn, fs: Store, req: Request, env: Env, op: Op, t: string)
    requires Matches(req.path, op, t)
    ensures MakeHandler(b, fn, fs, req, env) == Invoke(b, fn, fs, t, req.body, env)
  {
    ValidPathComplete(req.path, op, t);
  }

  /**
   * A request can change no file other than the page file of a routable
   * title: the router's character class keeps writes inside the working
   * directory's page files.
   */
  lemma MakeHandlerFrame(b: Build, fn: HandlerFn, fs: Store, req: Request, env: Env, k: string)
    requires !IsPageFile(k)
    ensures SameFile(fs, MakeHandler(b, fn, fs, req, env).fs, k)
  {
    match ValidPath(req.path)
    case None =>
    case Some(m) =>
      PageFileIff(m.title);
      assert k != FileName(m.title);
  }

  /** One request of a run: the wrapper it reached, the request, the environment's choices. */
  datatype Step = Step(fn: HandlerFn, req: Request, env: Env)

  /** The store after a run and the responses, one per request, in order. */
  datatype Trace = Trace(fs: Store, responses: seq<Response>)

  function Run(b: Build, fs: Store, steps: seq<Step>): (t: Trace)
    ensures |t.responses| == |steps|
    decreases |steps|
  {
    if |steps| == 0 then Trace(fs, [])
    else
      var o := MakeHandler(b, steps[0].fn, fs, steps[0].req, steps[0].env);
      var rest := Run(b, o.fs, steps[1..]);
      Trace(rest.fs, [o.response] + rest.responses)
  }

  /** No run of requests changes a file that is not a page file of a routable title. */
  lemma {:induction false} RunFrame(b: Build, fs: Store, steps: seq<Step>, k: string)
    requires !IsPageFile(k)
    ensures SameFile(fs, Run(b, fs, steps).fs, k)
    decreases |steps|
  {
    if |steps| > 0 {
      var o := MakeHandler(b, steps[0].fn, fs, steps[0].req, steps[0].env);
      MakeHandlerFrame(b, steps[0].fn, fs, steps[0].req, steps[0].env, k);
      RunFrame(b, o.fs, steps[1..], k);
    }
  }

  /** A run whose requests reach only the view and edit wrappers leaves the store as it was. */
  lemma {:induction false} ReadOnlyRun(b: Build, fs: Store, steps: seq<Step>)
    requires forall i :: 0 <= i < |steps| ==> steps[i].fn != SaveFn
    ensures Run(b, fs, steps).fs == fs
    decreases |steps|
  {
    if |steps| > 0 {
      ReadOnlyRun(b, fs, steps[1..]);
    }
  }

  /** A run of two requests, unfolded. */
  lemma RunTwo(b: Build, fs: Store, s0: Step, s1: Step)
    ensures var o0 := MakeHandler(b, s0.fn, fs, s0.req, s0.env);
            var o1 := MakeHandler(b, s1.fn, o0.fs, s1.req, s1.env);
            Run(b, fs, [s0, s1]) == Trace(o1.fs, [o0.response, o1.response])
  {
    var o0 := MakeHandler(b, s0.fn, fs, s0.req, s0.env);
    var o1 := MakeHandler(b, s1.fn, o0.fs, s1.req, s1.env);
    assert [s0, s1][1..] == [s1];
    assert [s1][1..] == [];
    assert Run(b, o1.fs, []) == Trace(o1.fs, []);
    assert Run(b, o0.fs, [s1]) == Trace(o1.fs, [o1.response]);
  }

  /** A fault-free save request at "/save/" + t stores the body and redirects to the view screen. */
  lemma SaveRequest(b: Build, fs: Store, t: string, body: seq<byte>)
    requires IsTitle(t)
    ensures var o := MakeHandler(b, SaveFn, fs, Request("/save/" + t, body), Clean);
            o.response == Redirect("/view/" + t) && LoadPage(o.fs, t, false) == Some(Page(t, body))
  {
    MakeHandlerPassesTitle(b, SaveFn, fs, Request("/save/" + t, body), Clean, Save, t);
  }

  /** A view request at "/view/" + t runs the view handler on t. */
  lemma ViewRequest(b: Build, fs: Store, t: string, body: seq<byte>, env: Env)
    requires IsTitle(t)
    ensures MakeHandler(b, ViewFn, fs, Request("/view/" + t, body), env) == ViewHandler(b, fs, t, env)
  {
    MakeHandlerPassesTitle(b, ViewFn, fs, Request("/view/" + t, body), env, View, t);
  }

  /** An edit request at "/edit/" + t runs the edit handler on t. */
  lemma EditRequest(b: Build, fs: Store, t: string, body: seq<byte>, env: Env)
    requires IsTitle(t)
    ensures MakeHandler(b, EditFn, fs, Request("/edit/" + t, body), env) == EditHandler(b, fs, t, env)
  {
    MakeHandlerPassesTitle(b, EditFn, fs, Request("/edit/" + t, body), env, Edit, t);
  }

  /** A save of title t with a body (no faults) followed by a view of t. */
  function SaveThenView(t: string, body: seq<byte>): seq<Step> {
    [Step(SaveFn, Request("/save/" + t, body), Clean), Step(ViewFn, Request("/view/" + t, []), Clean)]
  }

  /**
   * Corrected: saving a page and then viewing it redirects to the view
   * screen and then renders exactly the saved title and body.
   */
  lemma SaveThenViewRenders(fs: Store, t: string, body: seq<byte>)
    requires IsTitle(t)
    ensures Run(Corrected, fs, SaveThenView(t, body)).responses
         == [Redirect("/view/" + t), Render("tmpl/view.html", Page(t, body))]
  {
    var steps := SaveThenView(t, body);
    RunTwo(Corrected, fs, steps[0], steps[1]);
    SaveRequest(Corrected, fs, t, body);
    var fs1 := MakeHandler(Corrected, SaveFn, fs, steps[0].req, Clean).fs;
    ViewRequest(Corrected, fs1, t, [], Clean);
  }

  /**
   * As written: the same two requests store the page, but the view answers
   * 500, since the view template is never found.
   */
  lemma SaveThenViewAsWritten(fs: Store, t: string, body: seq<byte>)
    requires IsTitle(t)
    ensures Run(AsWritten, fs, SaveThenView(t, body)).responses == [Redirect("/view/" + t), Error500]
    ensures LoadPage(Run(AsWritten, fs, SaveThenView(t, body)).fs, t, false) == Some(Page(t, body))
  {
    var steps := SaveThenView(t, body);
    RunTwo(AsWritten, fs, steps[0], steps[1]);
    SaveRequest(AsWritten, fs, t, body);
    var fs1 := MakeHandler(AsWritten, SaveFn, fs, steps[0].req, Clean).fs;
    ViewRequest(AsWritten, fs1, t, [], Clean);
  }

  /**
   * Corrected: viewing a missing page redirects to its edit screen, and the
   * edit screen there offers the page with an empty body.
   */
  lemma MissingPageFlow(fs: Store, t: string, env: Env)
    requires IsTitle(t) && FileName(t) !in fs && !env.execFails
    ensures MakeHandler(Corrected, ViewFn, fs, Request("/view/" + t, []), env).response == Redirect("/edit/" + t)
    ensures MakeHandler(Corrected, EditFn, fs, Request("/edit/" + t, []), env).response
         == Render("tmpl/edit.html", Page(t, []))
  {
    ViewRequest(Corrected, fs, t, [], env);
    EditRequest(Corrected, fs, t, [], env);
  }

  /** As written: viewing a missing page crashes the handler instead of redirecting. */
  lemma MissingPageCrashes(fs: Store, t: string, env: Env)
    requires IsTitle(t) && FileName(t) !in fs
    ensures MakeHandler(AsWritten, ViewFn, fs, Request("/view/" + t, []), env).response == Crash
  {
    ViewRequest(AsWritten, fs, t, [], env);
  }

  /** Saving "Hello" to the page "Test" and then viewing it shows title "Test" and body "Hello". */
  lemma SaveHelloViewTest(fs: Store)
    ensures Run(Corrected, fs, SaveThenView("Test", [72, 101, 108, 108, 111])).responses[1]
         == Render("tmpl/view.html", Page("Test", [72, 101, 108, 108, 111]))
  {
    assert IsTitleChar('T') && IsTitleChar('e') && IsTitleChar('s') && IsTitleChar('t');
    SaveThenViewRenders(fs, "Test", [72, 101, 108, 108, 111]);
  }
}
