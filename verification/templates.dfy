/**
 * What the wiki relies on from the template library: parsing a list of
 * template files registers each one under the base name of its path, and
 * executing a template looks it up by its registered name.
 */
module Templates {

  /** The part of a slash-separated path after its last '/'. */
  function BaseName(path: string): (r: string)
    ensures |r| <= |path| && r == path[|path| - |r|..]
    ensures forall i :: 0 <= i < |r| ==> r[i] != '/'
    ensures |r| < |path| ==> path[|path| - |r| - 1] == '/'
    decreases |path|
  {
    if |path| == 0 || path[|path| - 1] == '/' then ""
    else BaseName(path[..|path| - 1]) + [path[|path| - 1]]
  }

  /** The template files parsed once at start-up. */
  const TemplateFiles: seq<string> := ["tmpl/edit.html", "tmpl/view.html"]

  /** Parsing a list of files registers each under its base name. */
  function ParsedNames(): set<string> {
    set f | f in TemplateFiles :: BaseName(f)
  }

  /** The template file of a screen. */
  function TemplateFile(name: string): string {
    "tmpl/" + name + ".html"
  }

  /** The template files of the two screens. */
  lemma TemplateFileNames()
    ensures TemplateFile("edit") == "tmpl/edit.html"
    ensures TemplateFile("view") == "tmpl/view.html"
  {
  }

  /** A path ending in "/" + s, with no '/' in s, has base name s. */
  lemma BaseNameOfJoin(dir: string, s: string)
    requires forall i :: 0 <= i < |s| ==> s[i] != '/'
    ensures BaseName(dir + "/" + s) == s
  {
    var path := dir + "/" + s;
    var r := BaseName(path);
    assert path[|dir|] == '/';
    assert r == path[|dir| + 1..] == s;
  }

  /** The template file of a screen is registered under the screen's name + ".html". */
  lemma BaseNameOfTemplateFile(name: string)
    requires forall i :: 0 <= i < |name| ==> name[i] != '/'
    ensures BaseName(TemplateFile(name)) == name + ".html"
  {
    var s := name + ".html";
    assert forall i :: 0 <= i < |s| ==> s[i] != '/' by {
      forall i | 0 <= i < |s|
        ensures s[i] != '/'
      {
        if i >= |name| {
          assert s[i] == ".html"[i - |name|];
        }
      }
    }
    assert TemplateFile(name) == "tmpl" + "/" + s;
    BaseNameOfJoin("tmpl", s);
  }

  /** The names the two template files are registered under. */
  lemma ParsedNamesAre()
    ensures ParsedNames() == {"edit.html", "view.html"}
  {
    assert TemplateFiles[0] == TemplateFile("edit");
    assert TemplateFiles[1] == TemplateFile("view");
    BaseNameOfTemplateFile("edit");
    BaseNameOfTemplateFile("view");
    assert ParsedNames() == {BaseName(TemplateFiles[0]), BaseName(TemplateFiles[1])};
  }

  /** A template file path contains a '/', so it is never a registered name. */
  lemma TemplatePathNeverRegistered(name: string)
    ensures TemplateFile(name) !in ParsedNames()
  {
    assert TemplateFile(name)[4] == '/';
  }

  /** The base-name lookup finds exactly the two screens. */
  lemma RegisteredScreens(name: string)
    ensures name + ".html" in {"edit.html", "view.html"} <==> name == "edit" || name == "view"
  {
    if name + ".html" == "edit.html" || name + ".html" == "view.html" {
      assert name == (name + ".html")[..4];
    }
  }
}
