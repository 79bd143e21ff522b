/**
 * The request-path validator `validPath` of the wiki server: the anchored
 * regular expression ^/(edit|save|view)/([a-zA-Z0-9]+)$ written as a hand
 * parser, and proved equal to a relational reading of the pattern.
 */
module Router {
  import opened Basics

  /** The three alternatives of the first capture group. */
  datatype Op = Edit | Save | View

  function OpName(op: Op): string {
    match op
    case Edit => "edit"
    case Save => "save"
    case View => "view"
  }

  /** The character class [a-zA-Z0-9]. */
  predicate IsTitleChar(c: char) {
    ('a' <= c <= 'z') || ('A' <= c <= 'Z') || ('0' <= c <= '9')
  }

  /** The second capture group [a-zA-Z0-9]+: non-empty, every character in the class. */
  predicate IsTitle(t: string) {
    |t| > 0 && forall i :: 0 <= i < |t| ==> IsTitleChar(t[i])
  }

  /**
   * The whole path matches the anchored pattern with captures `op` and
   * `title`; the anchors leave no room before or after.
   */
  predicate Matches(path: string, op: Op, title: string) {
    IsTitle(title) && path == "/" + OpName(op) + "/" + title
  }

  /** The two submatches of a successful match. */
  datatype Match = Match(op: Op, title: string)

  /** Reads one alternative of the first group. */
  function ParseOp(s: string): (r: Option<Op>)
    ensures r.Some? ==> OpName(r.value) == s
    ensures forall op :: OpName(op) == s ==> r == Some(op)
  {
    if s == "edit" then Some(Edit)
    else if s == "save" then Some(Save)
    else if s == "view" then Some(View)
    else None
  }

  /**
   * `validPath.FindStringSubmatch(path)`: None is Go's nil (no match).
   * Every alternative is four letters long, so the title starts at index 6.
   */
  function ValidPath(path: string): (m: Option<Match>)
    ensures m.Some? ==> Matches(path, m.value.op, m.value.title)
  {
    if |path| < 7 || path[0] != '/' || path[5] != '/' then None
    else
      match ParseOp(path[1..5])
      case None => None
      case Some(op) =>
        if IsTitle(path[6..]) then
          assert path == "/" + OpName(op) + "/" + path[6..] by {
            assert path == path[..1] + path[1..5] + path[5..6] + path[6..];
          }
          Some(Match(op, path[6..]))
        else None
  }

  /** A path of the pattern's shape determines both captures. */
  lemma ShapeDeterminesCaptures(path: string, op1: Op, t1: string, op2: Op, t2: string)
    requires path == "/" + OpName(op1) + "/" + t1
    requires path == "/" + OpName(op2) + "/" + t2
    ensures op1 == op2 && t1 == t2
  {
    assert OpName(op1) == path[1..5] == OpName(op2);
    assert t1 == path[6..] == t2;
  }

  /** The validator finds every match, with exactly the pattern's captures. */
  lemma ValidPathComplete(path: string, op: Op, title: string)
    requires Matches(path, op, title)
    ensures ValidPath(path) == Some(Match(op, title))
  {
    assert path[0] == '/' && path[5] == '/';
    assert path[1..5] == OpName(op);
    assert path[6..] == title;
  }

  /** The validator rejects a path exactly when no choice of captures matches it. */
  lemma ValidPathRejects(path: string)
    ensures ValidPath(path).None? <==> forall op, t :: !Matches(path, op, t)
  {
    forall op, t | Matches(path, op, t)
      ensures ValidPath(path).Some?
    {
      ValidPathComplete(path, op, t);
    }
  }

  /**
   * A path of the route shape whose title falls outside [a-zA-Z0-9]+ is
   * rejected, on every one of the three routes.
   */
  lemma BadTitleRejected(op: Op, t: string)
    requires !IsTitle(t)
    ensures ValidPath("/" + OpName(op) + "/" + t).None?
  {
    var path := "/" + OpName(op) + "/" + t;
    if ValidPath(path).Some? {
      var m := ValidPath(path).value;
      ShapeDeterminesCaptures(path, op, t, m.op, m.title);
      assert false;
    }
  }

  /**
   * A path that reached the handler registered under the prefix
   * "/" + OpName(op) + "/" can only match with that same `op`, so the
   * wrapper may ignore the first submatch.
   */
  lemma RegisteredPrefixAgrees(op: Op, path: string)
    requires |path| >= 6 && path[..6] == "/" + OpName(op) + "/"
    requires ValidPath(path).Some?
    ensures ValidPath(path).value.op == op
  {
    var m := ValidPath(path).value;
    assert OpName(m.op) == path[1..5] == OpName(op);
  }
}
