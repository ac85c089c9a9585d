/**
 * The tree-sitter based declaration index. Indexing a parsed file walks the named children of
 * the root; a `module` or `class` child is indexed by first indexing its own named children (with
 * itself as their parent) and then appending its declaration, so nested declarations come before
 * the declaration that encloses them; a `method` child appends one declaration and is not
 * entered. Every other node, with everything below it, is skipped.
 *
 * `Decls` is the functional reference: the declarations of one subtree in the order the index
 * appends them; `Add` distributes them over the class, module and method registries.
 */
module AnalysisIndex {
  import opened Wrappers
  import opened Seqs
  import opened AnalysisTypes

  /** A zero-based row and column, as tree-sitter reports them. */
  datatype Point = Point(row: nat, column: nat)

  /** A named tree-sitter node: its type, its text in the source, where it starts and ends, and
      its named children in order. */
  datatype SyntaxNode = SyntaxNode(kind: string, content: string, startPoint: Point, endPoint: Point,
                                   children: seq<SyntaxNode>)

  /** The node types the index dispatches on. */
  predicate IsDeclKind(kind: string) {
    kind == "module" || kind == "class" || kind == "method"
  }

  /** Every node the indexer reaches has a first named child, whose text is the declared name
      (the Go code dereferences NamedChild(0) without a nil check). */
  predicate Indexable(n: SyntaxNode)
    decreases n
  {
    IsDeclKind(n.kind) ==>
      |n.children| > 0 &&
      (n.kind != "method" ==> forall i :: 0 <= i < |n.children| ==> Indexable(n.children[i]))
  }

  /** What indexFile needs of a parsed file: every child of the root can be indexed. */
  predicate FileIndexable(root: SyntaxNode) {
    forall i :: 0 <= i < |root.children| ==> Indexable(root.children[i])
  }

  function PointLocation(p: Point, file: string): Location {
    Location(p.row, p.column, file)
  }

  /** The declaration indexModule, indexClass or indexMethod builds for a node. */
  function OwnDecl(n: SyntaxNode, file: string, parent: Option<Decl>): (d: Decl)
    requires IsDeclKind(n.kind) && |n.children| > 0
    ensures d.name == n.children[0].content && d.parent == parent
    ensures n.kind == "module" <==> d.ModuleDecl?
    ensures n.kind == "class" <==> d.ClassDecl?
    ensures n.kind == "method" <==> d.MethodDecl?
  {
    var name := n.children[0].content;
    if n.kind == "module" then ModuleDecl(name, parent, PointLocation(n.startPoint, file))
    else
      var r := Range(PointLocation(n.startPoint, file), PointLocation(n.endPoint, file));
      if n.kind == "class" then ClassDecl(name, parent, r) else MethodDecl(name, parent, r)
  }

  /** The declarations one node contributes, in the order they are appended. */
  function Decls(n: SyntaxNode, file: string, parent: Option<Decl>): (ds: seq<Decl>)
    requires Indexable(n)
    ensures ds != [] <==> IsDeclKind(n.kind)
    ensures ds != [] ==> ds[|ds| - 1] == OwnDecl(n, file, parent)
    decreases n, 1
  {
    if !IsDeclKind(n.kind) then []
    else if n.kind == "method" then [OwnDecl(n, file, parent)]
    else
      var own := OwnDecl(n, file, parent);
      ChildDecls(n, |n.children|, file, Some(own)) + [own]
  }

  /** The declarations of the first `k` named children of `n`, indexed with the given parent. */
  function ChildDecls(n: SyntaxNode, k: nat, file: string, parent: Option<Decl>): seq<Decl>
    requires k <= |n.children|
    requires forall i :: 0 <= i < k ==> Indexable(n.children[i])
    decreases n, 0, k
  {
    if k == 0 then []
    else ChildDecls(n, k - 1, file, parent) + Decls(n.children[k - 1], file, parent)
  }

  /** What indexFile appends for one parsed file: its top-level declarations have no parent. */
  function FileDecls(root: SyntaxNode, file: string): seq<Decl>
    requires FileIndexable(root)
  {
    ChildDecls(root, |root.children|, file, None)
  }

  /** The three registries of the index. */
  datatype Registry = Registry(classes: seq<Decl>, modules: seq<Decl>, methods: seq<Decl>)

  predicate IsClass(d: Decl) { d.ClassDecl? }
  predicate IsModule(d: Decl) { d.ModuleDecl? }
  predicate IsMethod(d: Decl) { d.MethodDecl? }

  /** Appending declarations: each goes to the registry its variant belongs to. */
  function Add(reg: Registry, ds: seq<Decl>): Registry {
    Registry(reg.classes + Filter(ds, IsClass), reg.modules + Filter(ds, IsModule),
             reg.methods + Filter(ds, IsMethod))
  }

  /** Adding in two steps is adding the concatenation. */
  lemma AddAppend(reg: Registry, a: seq<Decl>, b: seq<Decl>)
    ensures Add(Add(reg, a), b) == Add(reg, a + b)
  {
    AppendFiltered(reg.classes, a, b, IsClass);
    AppendFiltered(reg.modules, a, b, IsModule);
    AppendFiltered(reg.methods, a, b, IsMethod);
  }

  lemma AppendFiltered(base: seq<Decl>, a: seq<Decl>, b: seq<Decl>, keep: Decl -> bool)
    ensures base + Filter(a, keep) + Filter(b, keep) == base + Filter(a + b, keep)
  {
    FilterAppend(a, b, keep);
  }

  /** Each registry holds only its own variant, as its Go element type does. */
  predicate Sorted(reg: Registry) {
    (forall i :: 0 <= i < |reg.classes| ==> reg.classes[i].ClassDecl?) &&
    (forall i :: 0 <= i < |reg.modules| ==> reg.modules[i].ModuleDecl?) &&
    (forall i :: 0 <= i < |reg.methods| ==> reg.methods[i].MethodDecl?)
  }

  /** Adding keeps every registry to its own variant. */
  lemma AddSorted(reg: Registry, ds: seq<Decl>)
    requires Sorted(reg)
    ensures Sorted(Add(reg, ds))
  {
    var r := Add(reg, ds);
    forall i | 0 <= i < |r.classes| ensures r.classes[i].ClassDecl? {
      if i >= |reg.classes| {
        FilterSound(ds, IsClass);
        assert r.classes[i] in Filter(ds, IsClass);
      }
    }
    forall i | 0 <= i < |r.modules| ensures r.modules[i].ModuleDecl? {
      if i >= |reg.modules| {
        FilterSound(ds, IsModule);
        assert r.modules[i] in Filter(ds, IsModule);
      }
    }
    forall i | 0 <= i < |r.methods| ensures r.methods[i].MethodDecl? {
      if i >= |reg.methods| {
        FilterSound(ds, IsMethod);
        assert r.methods[i] in Filter(ds, IsMethod);
      }
    }
  }

  /** The declaration at `i` has its parent later in the list. */
  predicate ParentLater(ds: seq<Decl>, i: int)
    requires 0 <= i < |ds|
  {
    exists j :: i < j < |ds| && ds[i].parent == Some(ds[j])
  }

  /** Every declaration of `ds` has the given parent or a parent later in the list. */
  predicate Linked(ds: seq<Decl>, parent: Option<Decl>) {
    forall i :: 0 <= i < |ds| ==> ds[i].parent == parent || ParentLater(ds, i)
  }

  lemma ParentLaterAppend(ds: seq<Decl>, post: seq<Decl>, i: int)
    requires 0 <= i < |ds| && ParentLater(ds, i)
    ensures ParentLater(ds + post, i)
  {
    var j :| i < j < |ds| && ds[i].parent == Some(ds[j]);
    assert (ds + post)[j] == ds[j];
  }

  lemma ParentLaterPrepend(pre: seq<Decl>, ds: seq<Decl>, i: int)
    requires 0 <= i < |ds| && ParentLater(ds, i)
    ensures ParentLater(pre + ds, |pre| + i)
  {
    var j :| i < j < |ds| && ds[i].parent == Some(ds[j]);
    assert (pre + ds)[|pre| + j] == ds[j];
  }

  /**
   * Post-order with parent links: the node's own declaration comes last and carries the given
   * parent; every declaration before it is nested inside, and its parent is a declaration that
   * comes later in the list.
   */
  lemma {:induction false} DeclsPostOrder(n: SyntaxNode, file: string, parent: Option<Decl>)
    requires Indexable(n) && IsDeclKind(n.kind)
    ensures var ds := Decls(n, file, parent);
      ds[|ds| - 1].parent == parent && forall i :: 0 <= i < |ds| - 1 ==> ParentLater(ds, i)
    decreases n, 1
  {
    if n.kind != "method" {
      var own := OwnDecl(n, file, parent);
      var cs := ChildDecls(n, |n.children|, file, Some(own));
      ChildDeclsLinked(n, |n.children|, file, Some(own));
      var ds := Decls(n, file, parent);
      assert ds == cs + [own];
      forall i | 0 <= i < |ds| - 1
        ensures ParentLater(ds, i)
      {
        if cs[i].parent == Some(own) {
          assert ds[i].parent == Some(ds[|ds| - 1]);
        } else {
          ParentLaterAppend(cs, [own], i);
        }
      }
    }
  }

  /** Among the declarations of the first `k` children, each either carries the given parent
      (it is one of the children) or has its parent later in the list. */
  lemma {:induction false} ChildDeclsLinked(n: SyntaxNode, k: nat, file: string, parent: Option<Decl>)
    requires k <= |n.children|
    requires forall i :: 0 <= i < k ==> Indexable(n.children[i])
    ensures Linked(ChildDecls(n, k, file, parent), parent)
    decreases n, 0, k
  {
    if k > 0 {
      var c := n.children[k - 1];
      var front := ChildDecls(n, k - 1, file, parent);
      var back := Decls(c, file, parent);
      var cs := ChildDecls(n, k, file, parent);
      assert cs == front + back;
      ChildDeclsLinked(n, k - 1, file, parent);
      if back != [] {
        DeclsPostOrder(c, file, parent);
      }
      forall i | 0 <= i < |cs|
        ensures cs[i].parent == parent || ParentLater(cs, i)
      {
        if i < |front| {
          assert cs[i] == front[i];
          if cs[i].parent != parent {
            ParentLaterAppend(front, back, i);
          }
        } else {
          var b := i - |front|;
          assert cs[i] == back[b];
          if b < |back| - 1 {
            ParentLaterPrepend(front, back, b);
          }
        }
      }
    }
  }

  /** In one file, a declaration has no parent or its parent is indexed after it. */
  lemma FileDeclsLinked(root: SyntaxNode, file: string)
    requires FileIndexable(root)
    ensures Linked(FileDecls(root, file), None)
  {
    ChildDeclsLinked(root, |root.children|, file, None);
  }

  /** What the walk hands the callback for each `.rb` file: a parsed tree, or a read or parse
      failure, which ends the walk. */
  datatype FileResult = Parsed(path: string, tree: SyntaxNode) | Failed(err: string)

  predicate WalkIndexable(walk: seq<FileResult>) {
    forall i :: 0 <= i < |walk| && walk[i].Parsed? ==> FileIndexable(walk[i].tree)
  }

  /** The declarations of the files the walk indexes before its first failure. */
  function WalkDecls(walk: seq<FileResult>): seq<Decl>
    requires WalkIndexable(walk)
    decreases |walk|
  {
    if walk == [] || walk[0].Failed? then []
    else FileDecls(walk[0].tree, walk[0].path) + WalkDecls(walk[1..])
  }

  /** The index: the three registries and the flag that says indexing has finished. */
  class Index {
    const root: string
    var indexed: bool
    var classes: seq<Decl>
    var modules: seq<Decl>
    var methods: seq<Decl>

    function Reg(): Registry
      reads this
    {
      Registry(classes, modules, methods)
    }

    predicate Valid()
      reads this
    {
      Sorted(Reg())
    }

    /** New: an empty index over a workspace root, not yet indexed. */
    constructor New(path: string)
      ensures root == path && !indexed
      ensures Reg() == Registry([], [], []) && Valid()
    {
      root := path;
      indexed := false;
      classes, modules, methods := [], [], [];
    }

    /** Start: index every file the walk yields, stopping at the first failure (which is only
        logged), and mark the index as finished. */
    method Start(walk: seq<FileResult>)
      requires WalkIndexable(walk) && Valid()
      modifies this
      ensures indexed && Valid()
      ensures Reg() == Add(old(Reg()), WalkDecls(walk))
    {
      var i := 0;
      while i < |walk| && walk[i].Parsed?
        invariant 0 <= i <= |walk|
        invariant Add(Reg(), WalkDecls(walk[i..])) == Add(old(Reg()), WalkDecls(walk))
        decreases |walk| - i
      {
        var r := Reg();
        assert walk[i..][1..] == walk[i + 1..];
        AddAppend(r, FileDecls(walk[i].tree, walk[i].path), WalkDecls(walk[i + 1..]));
        IndexFile(walk[i].tree, walk[i].path);
        i := i + 1;
      }
      assert WalkDecls(walk[i..]) == [];
      assert Add(Reg(), []) == Reg();
      AddSorted(old(Reg()), WalkDecls(walk));
      indexed := true;
    }

    /** indexFile: index the named children of the root, with no parent. */
    method IndexFile(tree: SyntaxNode, file: string)
      requires FileIndexable(tree)
      modifies this
      ensures Reg() == Add(old(Reg()), FileDecls(tree, file))
      ensures indexed == old(indexed)
    {
      IndexChildren(tree, file, None);
    }

    /** The loop indexFile, indexModule and indexClass share: index every named child, with the
        given parent. */
    method IndexChildren(node: SyntaxNode, file: string, parent: Option<Decl>)
      requires forall i :: 0 <= i < |node.children| ==> Indexable(node.children[i])
      modifies this
      ensures Reg() == Add(old(Reg()), ChildDecls(node, |node.children|, file, parent))
      ensures indexed == old(indexed)
      decreases node, 0
    {
      var j := 0;
      assert Add(Reg(), []) == Reg();
      while j < |node.children|
        invariant 0 <= j <= |node.children| && indexed == old(indexed)
        invariant Reg() == Add(old(Reg()), ChildDecls(node, j, file, parent))
      {
        ghost var before := ChildDecls(node, j, file, parent);
        IndexChild(node.children[j], file, parent);
        AddAppend(old(Reg()), before, Decls(node.children[j], file, parent));
        j := j + 1;
      }
    }

    /** The switch on a child's type: modules, classes and methods are indexed, any other node
        is skipped together with everything below it. */
    method IndexChild(n: SyntaxNode, file: string, parent: Option<Decl>)
      requires Indexable(n)
      modifies this
      ensures Reg() == Add(old(Reg()), Decls(n, file, parent))
      ensures indexed == old(indexed)
      decreases n, 2
    {
      if n.kind == "module" {
        IndexModule(n, file, parent);
      } else if n.kind == "class" {
        IndexClass(n, file, parent);
      } else if n.kind == "method" {
        IndexMethod(n, file, parent);
      } else {
        assert Add(Reg(), []) == Reg();
      }
    }

    /** indexModule: index the module's children with the module as parent, then append it. */
    method IndexModule(node: SyntaxNode, file: string, parent: Option<Decl>)
      requires node.kind == "module" && Indexable(node)
      modifies this
      ensures Reg() == Add(old(Reg()), Decls(node, file, parent))
      ensures indexed == old(indexed)
      decreases node, 1
    {
      var decl := ModuleDecl(node.children[0].content, parent, PointLocation(node.startPoint, file));
      IndexChildren(node, file, Some(decl));
      modules := modules + [decl];
      AddAppend(old(Reg()), ChildDecls(node, |node.children|, file, Some(decl)), [decl]);
    }

    /** indexClass: index the class's children with the class as parent, then append it. */
    method IndexClass(node: SyntaxNode, file: string, parent: Option<Decl>)
      requires node.kind == "class" && Indexable(node)
      modifies this
      ensures Reg() == Add(old(Reg()), Decls(node, file, parent))
      ensures indexed == old(indexed)
      decreases node, 1
    {
      var decl := ClassDecl(node.children[0].content, parent,
                             Range(PointLocation(node.startPoint, file), PointLocation(node.endPoint, file)));
      IndexChildren(node, file, Some(decl));
      classes := classes + [decl];
      AddAppend(old(Reg()), ChildDecls(node, |node.children|, file, Some(decl)), [decl]);
    }

    /** indexMethod: append one method declaration; the body is not searched. */
    method IndexMethod(node: SyntaxNode, file: string, parent: Option<Decl>)
      requires node.kind == "method" && Indexable(node)
      modifies this
      ensures classes == old(classes) && modules == old(modules)
      ensures methods == old(methods) + [OwnDecl(node, file, parent)]
      ensures Reg() == Add(old(Reg()), Decls(node, file, parent))
      ensures indexed == old(indexed)
    {
      var decl := MethodDecl(node.children[0].content, parent,
                                Range(PointLocation(node.startPoint, file), PointLocation(node.endPoint, file)));
      methods := methods + [decl];
    }

    /** LookupConstant: classes, then modules, whose name is `ident` and whose parent's bare name
        is `parentName`; found whenever indexing has finished, even with no match. */
    method LookupConstant(ident: string, parentName: string) returns (res: seq<Decl>, found: bool)
      requires Valid()
      ensures !indexed ==> res == [] && !found
      ensures indexed ==>
                found && res == Filter(classes, ConstantMatch(ident, parentName)) +
                                 Filter(modules, ConstantMatch(ident, parentName))
    {
      if !indexed {
        return [], false;
      }
      var keep := ConstantMatch(ident, parentName);
      res := [];
      var i := 0;
      while i < |classes|
        invariant 0 <= i <= |classes| && res == Filter(classes[..i], keep)
      {
        var c := classes[i];
        assert classes[..i + 1][..i] == classes[..i];
        if c.name == ident && ParentName(c) == parentName {
          res := res + [c];
        }
        i := i + 1;
      }
      assert classes[..i] == classes;
      var fromClasses := res;
      i := 0;
      while i < |modules|
        invariant 0 <= i <= |modules| && res == fromClasses + Filter(modules[..i], keep)
      {
        var m := modules[i];
        assert modules[..i + 1][..i] == modules[..i];
        if m.name == ident && ParentName(m) == parentName {
          res := res + [m];
        }
        i := i + 1;
      }
      assert modules[..i] == modules;
      found := true;
    }

    /** LookupIdentifier: the methods named `ident`, whatever their parent; found whenever
        indexing has finished. */
    method LookupIdentifier(ident: string) returns (res: seq<Decl>, found: bool)
      ensures !indexed ==> res == [] && !found
      ensures indexed ==> found && res == Filter(methods, NameMatch(ident))
    {
      if !indexed {
        return [], false;
      }
      res := [];
      var i := 0;
      while i < |methods|
        invariant 0 <= i <= |methods| && res == Filter(methods[..i], NameMatch(ident))
      {
        var m := methods[i];
        assert methods[..i + 1][..i] == methods[..i];
        if m.name == ident {
          res := res + [m];
        }
        i := i + 1;
      }
      assert methods[..i] == methods;
      found := true;
    }
  }

  /** The test LookupConstant applies to each class and module. */
  function ConstantMatch(ident: string, parentName: string): Decl -> bool {
    (d: Decl) => d.name == ident && HasParentName(d) && ParentName(d) == parentName
  }

  /** The test LookupIdentifier applies to each method. */
  function NameMatch(ident: string): Decl -> bool {
    (d: Decl) => d.name == ident
  }

  /** A LookupConstant result holds exactly the matching declarations of the two registries,
      every class before every module. */
  lemma ConstantLookupMembers(classes: seq<Decl>, modules: seq<Decl>, ident: string, parentName: string, d: Decl)
    requires forall i :: 0 <= i < |classes| ==> classes[i].ClassDecl?
    requires forall i :: 0 <= i < |modules| ==> modules[i].ModuleDecl?
    ensures var fromClasses := Filter(classes, ConstantMatch(ident, parentName));
      var res := fromClasses + Filter(modules, ConstantMatch(ident, parentName));
      (d in res <==> (d in classes || d in modules) && d.name == ident && ParentName(d) == parentName) &&
      (forall i :: 0 <= i < |res| ==> (res[i].ClassDecl? <==> i < |fromClasses|))
  {
    var keep := ConstantMatch(ident, parentName);
    FilterSound(classes, keep);
    FilterSound(modules, keep);
    FilterComplete(classes, keep);
    FilterComplete(modules, keep);
    var fromClasses := Filter(classes, keep);
    var res := fromClasses + Filter(modules, keep);
    forall i | 0 <= i < |res|
      ensures res[i].ClassDecl? <==> i < |fromClasses|
    {
      if i < |fromClasses| {
        assert res[i] in classes;
      } else {
        assert res[i] in Filter(modules, keep);
        assert res[i] in modules;
      }
    }
  }

  /** A LookupIdentifier result holds exactly the methods named `ident`, and all of them when
      they all bear that name. */
  lemma IdentifierLookupMembers(methods: seq<Decl>, ident: string, d: Decl)
    ensures d in Filter(methods, NameMatch(ident)) <==> d in methods && d.name == ident
    ensures (forall i :: 0 <= i < |methods| ==> methods[i].name == ident) ==>
              Filter(methods, NameMatch(ident)) == methods
  {
    FilterSound(methods, NameMatch(ident));
    FilterComplete(methods, NameMatch(ident));
    FilterAll(methods, NameMatch(ident));
  }
}
