/**
 * The page store: `Page`, `Page.save` and `loadPage`. The working directory
 * is a map from file name to whole-file contents; a page titled T lives in
 * the file T + ".txt".
 */
module PageStore {
  import opened Basics
  import Router

  /** A wiki page: its title (also its file-name stem) and its raw body. */
  datatype Page = Page(title: string, body: seq<byte>)

  /** The files of the working directory, by name. */
  type Store = map<string, seq<byte>>

  /** The file a page is kept in. */
  function FileName(title: string): string {
    title + ".txt"
  }

  /** File `k` is absent from both stores or has the same contents in both. */
  predicate SameFile(fs1: Store, fs2: Store, k: string) {
    (k in fs1 <==> k in fs2) && (k in fs1 ==> fs1[k] == fs2[k])
  }

  /** The name of a file some routable title is stored in. */
  predicate IsPageFile(k: string) {
    |k| >= 4 && k[|k| - 4..] == ".txt" && Router.IsTitle(k[..|k| - 4])
  }

  /**
   * How a whole-file write ends. The write opens the file (creating it,
   * truncating it), writes the bytes, and closes it; an error at any step is
   * returned. `FailsAfter(kept)` is a failure after the truncation, with the
   * first `kept` bytes on disk (a failing close after a full write included).
   */
  datatype WriteFault = NoFault | OpenFails | FailsAfter(kept: nat)

  /** The store after a save, and whether the save returned an error. */
  datatype Saved = Saved(fs: Store, failed: bool)

  /** `Page.save`: write the body, as a whole, to the page's file. */
  function Save(fs: Store, page: Page, fault: WriteFault): (r: Saved)
    ensures !r.failed <==> fault == NoFault
    ensures !r.failed ==> FileName(page.title) in r.fs && r.fs[FileName(page.title)] == page.body
    ensures fault == OpenFails ==> r.fs == fs
    ensures fault.FailsAfter? ==> FileName(page.title) in r.fs && r.fs[FileName(page.title)] <= page.body
    ensures forall k :: k != FileName(page.title) ==> SameFile(fs, r.fs, k)
  {
    var file := FileName(page.title);
    match fault
    case NoFault => Saved(fs[file := page.body], false)
    case OpenFails => Saved(fs, true)
    case FailsAfter(kept) => Saved(fs[file := page.body[..Min(kept, |page.body|)]], true)
  }

  /**
   * `loadPage`: read the page's file. Every read error, the file being
   * absent or `readFails` for a file that exists but cannot be read, gives
   * None, the nil page.
   */
  function LoadPage(fs: Store, title: string, readFails: bool): (r: Option<Page>)
    ensures r.None? <==> readFails || FileName(title) !in fs
    ensures r.Some? ==> r.value.title == title && r.value.body == fs[FileName(title)]
  {
    var file := FileName(title);
    if readFails || file !in fs then None else Some(Page(title, fs[file]))
  }

  /** Distinct titles are kept in distinct files. */
  lemma FileNameInjective(a: string, b: string)
    requires FileName(a) == FileName(b)
    ensures a == b
  {
    assert a == FileName(a)[..|a|];
    assert b == FileName(b)[..|b|];
  }

  /** A file name is a page file exactly when it is derived from a routable title. */
  lemma PageFileIff(t: string)
    ensures IsPageFile(FileName(t)) <==> Router.IsTitle(t)
  {
    var k := FileName(t);
    assert k[..|k| - 4] == t;
    assert k[|k| - 4..] == ".txt";
  }

  /**
   * The file of a routable title has no '/' and exactly one '.', the one
   * that starts ".txt".
   */
  lemma FileNameSafe(t: string)
    requires Router.IsTitle(t)
    ensures forall i :: 0 <= i < |FileName(t)| ==> FileName(t)[i] != '/'
    ensures forall i :: 0 <= i < |FileName(t)| ==> (FileName(t)[i] == '.' <==> i == |t|)
  {
    var k := FileName(t);
    forall i | 0 <= i < |k|
      ensures k[i] != '/' && (k[i] == '.' <==> i == |t|)
    {
      if i < |t| {
        assert k[i] == t[i];
        assert Router.IsTitleChar(t[i]);
      } else {
        assert k[i] == ".txt"[i - |t|];
      }
    }
  }

  /** Loading a page right after saving it gives back the saved title and body. */
  lemma SaveLoadRoundTrip(fs: Store, t: string, b: seq<byte>)
    ensures LoadPage(Save(fs, Page(t, b), NoFault).fs, t, false) == Some(Page(t, b))
  {
  }

  /**
   * Last write wins: a successful save leaves the same store whatever was
   * saved to that title before, even a save that failed halfway.
   */
  lemma LastWriteWins(fs: Store, t: string, b1: seq<byte>, f1: WriteFault, b2: seq<byte>)
    ensures Save(Save(fs, Page(t, b1), f1).fs, Page(t, b2), NoFault).fs
         == Save(fs, Page(t, b2), NoFault).fs
    ensures LoadPage(Save(Save(fs, Page(t, b1), f1).fs, Page(t, b2), NoFault).fs, t, false)
         == Some(Page(t, b2))
  {
    var s1 := Save(fs, Page(t, b1), f1).fs;
    var lhs := Save(s1, Page(t, b2), NoFault).fs;
    var rhs := Save(fs, Page(t, b2), NoFault).fs;
    forall k | k != FileName(t)
      ensures SameFile(lhs, rhs, k)
    {
      assert SameFile(fs, s1, k);
    }
    assert lhs.Keys == rhs.Keys;
  }

  /** Saving one page leaves what every other title loads unchanged. */
  lemma SaveFrame(fs: Store, t: string, b: seq<byte>, f: WriteFault, other: string, readFails: bool)
    requires other != t
    ensures LoadPage(Save(fs, Page(t, b), f).fs, other, readFails) == LoadPage(fs, other, readFails)
  {
    if FileName(other) == FileName(t) {
      FileNameInjective(other, t);
    }
  }
}
