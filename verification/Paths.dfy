/**
 Paths as they are spelled on Unix.

 A path is compared by its components; repeated separators and inner dots do not count.
 What stays inside a repository is decided on components too.
 */
module Paths {
  import opened Text
  import opened Sorting

  datatype Component = RootDir | CurDir | ParentDir | Name(text: string)

  function Rank(c: Component): nat {
    match c
    case RootDir => 0
    case CurDir => 1
    case ParentDir => 2
    case Name(_) => 3
  }

  predicate ComponentLeq(a: Component, b: Component) {
    if a.Name? && b.Name? then TextLeq(a.text, b.text) else Rank(a) <= Rank(b)
  }

  lemma ComponentOrder()
    ensures Order(ComponentLeq)
  {
    hide TextLeq;
    TextOrder();
  }

  function ComponentsOf(pieces: seq<string>, first: bool): seq<Component> {
    if pieces == [] then []
    else
      var rest := ComponentsOf(pieces[1..], false);
      if pieces[0] == "" || (pieces[0] == "." && !first) then rest
      else if pieces[0] == "." then [CurDir] + rest
      else if pieces[0] == ".." then [ParentDir] + rest
      else [Name(pieces[0])] + rest
  }

  /** `Path::components` on Unix: repeated separators and inner dots vanish. */
  function Components(path: string): seq<Component> {
    if path != "" && path[0] == '/' then [RootDir] + ComponentsOf(Split(path[1..], '/'), false)
    else ComponentsOf(Split(path, '/'), true)
  }

  /** `starts_with`, component by component. */
  predicate StartsWith(path: string, root: string) {
    Components(root) <= Components(path)
  }

  /** A path that cannot leave the repository. */
  predicate Inside(path: string) {
    && !(path != "" && path[0] == '/')
    && forall i :: 0 <= i < |Components(path)| ==> !Components(path)[i].ParentDir? && !Components(path)[i].RootDir?
  }

  lemma SamplePieces()
    ensures Split("a//./b/", '/') == ["a", "", ".", "b", ""] && Split("a/../b", '/') == ["a", "..", "b"] && Split("a", '/') == ["a"]
  {
    hide Split;
    NoSlash("");
    NoSlash("a");
    NoSlash("b");
    SplitFirst("a", '/', "/./b/");
    SplitFirst("", '/', "./b/");
    SplitFirst(".", '/', "b/");
    SplitFirst("b", '/', "");
    assert "a" + ['/'] + "/./b/" == "a//./b/" && "" + ['/'] + "./b/" == "/./b/" && "." + ['/'] + "b/" == "./b/" && "b" + ['/'] + "" == "b/";
    SplitFirst("a", '/', "../b");
    SplitFirst("..", '/', "b");
    assert "a" + ['/'] + "../b" == "a/../b" && ".." + ['/'] + "b" == "../b";
  }

  lemma NoSlash(s: string)
    requires '/' !in s
    ensures Split(s, '/') == [s]
  {
  }

  /** A parent step or a root leads outside; inner dots, repeated and trailing separators do not count. */
  lemma SamplePaths()
    ensures Components("a//./b/") == [Name("a"), Name("b")] && Inside("a//./b/")
    ensures Components("/a") == [RootDir, Name("a")] && !Inside("/a")
    ensures Components("a/../b") == [Name("a"), ParentDir, Name("b")] && !Inside("a/../b")
  {
    hide Split, ComponentsOf;
    SamplePieces();
    SampleComponents();
    assert "/a"[1..] == "a";
    assert Components("a/../b")[1] == ParentDir;
  }

  lemma SampleComponents()
    ensures ComponentsOf(["a", "", ".", "b", ""], true) == [Name("a"), Name("b")]
    ensures ComponentsOf(["a", "b"], true) == [Name("a"), Name("b")]
    ensures ComponentsOf(["a"], false) == [Name("a")]
    ensures ComponentsOf(["a", "..", "b"], true) == [Name("a"), ParentDir, Name("b")]
  {
    assert ["a", "", ".", "b", ""][1..] == ["", ".", "b", ""] && ["", ".", "b", ""][1..] == [".", "b", ""] && [".", "b", ""][1..] == ["b", ""];
    assert ["b", ""][1..] == [""] && [""][1..] == [] && ["a", "b"][1..] == ["b"] && ["b"][1..] == [] && ["a"][1..] == [];
    assert ["a", "..", "b"][1..] == ["..", "b"] && ["..", "b"][1..] == ["b"];
  }

  lemma ComponentsOrder(a: seq<Component>, b: seq<Component>, c: seq<Component>)
    ensures Lex(ComponentLeq, a, b) || Lex(ComponentLeq, b, a)
    ensures Lex(ComponentLeq, a, b) && Lex(ComponentLeq, b, a) ==> a == b
    ensures Lex(ComponentLeq, a, b) && Lex(ComponentLeq, b, c) ==> Lex(ComponentLeq, a, c)
  {
    hide ComponentLeq, Lex;
    ComponentOrder();
    LexTotal(ComponentLeq, a, b);
    if Lex(ComponentLeq, a, b) && Lex(ComponentLeq, b, c) { LexTransitive(ComponentLeq, a, b, c); }
  }
}
