/**
 * findNesting: from a node of the syntax tree, the qualified names of the modules and classes
 * that enclose it, most specific first. `Foo::Bar` for a node inside `class Bar` inside
 * `module Foo`, then `Foo`.
 */
module Nesting {
  import opened Wrappers

  /** A node on the path from a node up to the root: its type and the text of its first named
      child, if it has one. */
  datatype Ancestor = Ancestor(kind: string, firstChild: Option<string>)

  predicate IsScope(a: Ancestor) {
    a.kind == "module" || a.kind == "class"
  }

  /** Every module or class on the path has a name (the Go code reads NamedChild(0) unguarded). */
  predicate ScopesNamed(path: seq<Ancestor>) {
    forall i :: 0 <= i < |path| && IsScope(path[i]) ==> path[i].firstChild.Some?
  }

  /** The names of the modules and classes of `path`, in path order. */
  function ScopeNames(path: seq<Ancestor>): seq<string>
    requires ScopesNamed(path)
    decreases |path|
  {
    if path == [] then []
    else
      var last := path[|path| - 1];
      ScopeNames(path[..|path| - 1]) + (if IsScope(last) then [last.firstChild.value] else [])
  }

  function Reversed<T>(s: seq<T>): (r: seq<T>)
    ensures |r| == |s|
    ensures forall i :: 0 <= i < |s| ==> r[i] == s[|s| - 1 - i]
  {
    seq(|s|, i requires 0 <= i < |s| => s[|s| - 1 - i])
  }

  /** strings.Join: the elements with `sep` between neighbours. */
  function Join(xs: seq<string>, sep: string): string
    decreases |xs|
  {
    if xs == [] then ""
    else if |xs| == 1 then xs[0]
    else Join(xs[..|xs| - 1], sep) + sep + xs[|xs| - 1]
  }

  /** The candidate list for names given outermost first: entry k joins the first n - k. */
  function Candidates(names: seq<string>): (r: seq<string>)
    ensures |r| == |names|
  {
    seq(|names|, k requires 0 <= k < |names| => Join(names[..|names| - k], "::"))
  }

  /**
   * findNesting. `path[0]` is the node itself and `path[1..]` its ancestors from the parent up
   * to the root; the walk starts at the parent, so the node never contributes. The names
   * collected innermost first are reversed, and the candidates built from the longest prefix
   * down.
   */
  method FindNesting(path: seq<Ancestor>) returns (res: seq<string>)
    requires |path| >= 1 && ScopesNamed(path[1..])
    ensures res == Candidates(Reversed(ScopeNames(path[1..])))
  {
    var namespaces: seq<string> := [];
    var i := 1;
    while i < |path|
      invariant 1 <= i <= |path|
      invariant namespaces == ScopeNames(path[1..i])
    {
      assert path[1..i + 1][..i - 1] == path[1..i];
      if path[i].kind == "module" || path[i].kind == "class" {
        namespaces := namespaces + [path[i].firstChild.value];
      }
      i := i + 1;
    }
    assert path[1..i] == path[1..];
    namespaces := Reversed(namespaces);
    res := [];
    var j := |namespaces| - 1;
    while j >= 0
      invariant -1 <= j < |namespaces|
      invariant |res| == |namespaces| - 1 - j
      invariant forall k :: 0 <= k < |res| ==> res[k] == Join(namespaces[..|namespaces| - k], "::")
    {
      res := res + [Join(namespaces[..j + 1], "::")];
      j := j - 1;
    }
  }

  /** One name per module or class on the path. */
  lemma {:induction false} ScopeNamesCount(path: seq<Ancestor>)
    requires ScopesNamed(path)
    ensures |ScopeNames(path)| == |set i | 0 <= i < |path| && IsScope(path[i])|
    decreases |path|
  {
    if path != [] {
      var init := path[..|path| - 1];
      var n := |path| - 1;
      ScopeNamesCount(init);
      var before := set i | 0 <= i < n && IsScope(init[i]);
      var now := set i | 0 <= i < |path| && IsScope(path[i]);
      if IsScope(path[n]) {
        assert now == before + {n};
      } else {
        assert now == before;
      }
    }
  }

  /** Exactly the modules and classes contribute, each by its own name. */
  lemma {:induction false} ScopeNamesMembers(path: seq<Ancestor>, x: string)
    requires ScopesNamed(path)
    ensures x in ScopeNames(path) <==>
              exists i :: 0 <= i < |path| && IsScope(path[i]) && path[i].firstChild == Some(x)
    decreases |path|
  {
    if path != [] {
      var init := path[..|path| - 1];
      var n := |path| - 1;
      ScopeNamesMembers(init, x);
      if x in ScopeNames(path) && x in ScopeNames(init) {
        var i :| 0 <= i < |init| && IsScope(init[i]) && init[i].firstChild == Some(x);
        assert path[i] == init[i];
      }
      if exists i :: 0 <= i < |path| && IsScope(path[i]) && path[i].firstChild == Some(x) {
        var i :| 0 <= i < |path| && IsScope(path[i]) && path[i].firstChild == Some(x);
        if i < n {
          assert init[i] == path[i];
        }
      }
    }
  }

  /** Appending a name to a non-empty list appends the separator and the name. */
  lemma JoinSnoc(xs: seq<string>, x: string, sep: string)
    requires xs != []
    ensures Join(xs + [x], sep) == Join(xs, sep) + sep + x
  {
    assert (xs + [x])[..|xs|] == xs;
  }

  /**
   * The shape of the candidate list: it is empty exactly when no module or class encloses the
   * node; the first entry is the full path and the last the outermost name alone.
   */
  lemma CandidatesShape(names: seq<string>)
    ensures Candidates(names) == [] <==> names == []
    ensures names != [] ==> Candidates(names)[0] == Join(names, "::")
    ensures names != [] ==> Candidates(names)[|names| - 1] == names[0]
  {
    if names != [] {
      assert names[..|names|] == names;
    }
  }

  /** Each candidate extends the next, shorter one by one more name. */
  lemma CandidateStep(names: seq<string>, k: nat)
    requires k < |names| - 1
    ensures Candidates(names)[k] == Candidates(names)[k + 1] + "::" + names[|names| - 1 - k]
  {
    var m := |names| - k;
    assert names[..m] == names[..m - 1] + [names[m - 1]];
    JoinSnoc(names[..m - 1], names[m - 1], "::");
  }

  /** A node inside `class Bar` inside `module Foo` (with a body node in between) gets
      `Foo::Bar`, then `Foo`. */
  lemma FindNestingExample()
    ensures var path := [Ancestor("identifier", None), Ancestor("class", Some("Bar")),
                         Ancestor("body_statement", None), Ancestor("module", Some("Foo")),
                         Ancestor("program", None)];
      Candidates(Reversed(ScopeNames(path[1..]))) == ["Foo::Bar", "Foo"]
  {
    var path := [Ancestor("identifier", None), Ancestor("class", Some("Bar")),
                 Ancestor("body_statement", None), Ancestor("module", Some("Foo")),
                 Ancestor("program", None)];
    var up := path[1..];
    assert up[..3] == up[..|up| - 1];
    assert up[..2] == up[..3][..2];
    assert up[..1] == up[..2][..1];
    assert ScopeNames(up[..1]) == ["Bar"];
    assert ScopeNames(up[..2]) == ["Bar"];
    assert ScopeNames(up[..3]) == ["Bar", "Foo"];
    assert ScopeNames(up) == ["Bar", "Foo"];
    var names := ["Foo", "Bar"];
    assert Reversed(["Bar", "Foo"]) == names;
    assert names[..2] == names && names[..1] == ["Foo"];
    assert Join(names, "::") == "Foo::Bar";
  }
}
