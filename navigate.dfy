/**
 * Child filters over prism nodes: the classes, methods and modules declared directly in the
 * body of a module, class or singleton class.
 */
module Navigate {
  import opened Wrappers
  import Seqs
  import opened Prism

  /** isMethodNode: a method definition or an alias. */
  predicate IsMethodNode(n: PNode) {
    n.kind.DefNode? || n.kind.AliasMethodNode?
  }

  /** isClassNode: a class or a singleton class. */
  predicate IsClassNode(n: PNode) {
    n.kind.ClassNode? || n.kind.SingletonClassNode?
  }

  /** isModuleNode. */
  predicate IsModuleNode(n: PNode) {
    n.kind.ModuleNode?
  }

  /** The kinds whose body the three filters look into. */
  predicate IsScopeNode(n: PNode) {
    n.kind.ModuleNode? || n.kind.ClassNode? || n.kind.SingletonClassNode?
  }

  /** The filters read Body.Children() without a nil check: a module, class or singleton class
      without a body (`class Foo; end`) makes them panic. */
  predicate BodyPresent(n: PNode) {
    IsScopeNode(n) ==> n.children != []
  }

  /** The children of the body of a scope node; nothing for any other node. */
  function BodyChildren(n: PNode): seq<PNode>
    requires BodyPresent(n)
  {
    if IsScopeNode(n) then n.children[0].children else []
  }

  /** SubClasses: the classes and singleton classes directly in the body, in order; `panicked`
      when a scope node has no body. */
  method SubClasses(node: PNode) returns (classes: seq<PNode>, panicked: bool)
    ensures panicked <==> !BodyPresent(node)
    ensures !panicked ==> classes == Seqs.Filter(BodyChildren(node), IsClassNode)
  {
    classes, panicked := [], false;
    if IsScopeNode(node) {
      var body := Body(node);
      if body.None? {
        return [], true;
      }
      var i := 0;
      while i < |body.value.children|
        invariant 0 <= i <= |body.value.children|
        invariant classes == Seqs.Filter(body.value.children[..i], IsClassNode)
      {
        var child := body.value.children[i];
        assert body.value.children[..i + 1][..i] == body.value.children[..i];
        if IsClassNode(child) {
          classes := classes + [child];
        }
        i := i + 1;
      }
      assert body.value.children[..i] == body.value.children;
    }
  }

  /** Methods: the method definitions and aliases directly in the body, in order; `panicked`
      when a scope node has no body. */
  method Methods(node: PNode) returns (methods: seq<PNode>, panicked: bool)
    ensures panicked <==> !BodyPresent(node)
    ensures !panicked ==> methods == Seqs.Filter(BodyChildren(node), IsMethodNode)
  {
    methods, panicked := [], false;
    if IsScopeNode(node) {
      var body := Body(node);
      if body.None? {
        return [], true;
      }
      var i := 0;
      while i < |body.value.children|
        invariant 0 <= i <= |body.value.children|
        invariant methods == Seqs.Filter(body.value.children[..i], IsMethodNode)
      {
        var child := body.value.children[i];
        assert body.value.children[..i + 1][..i] == body.value.children[..i];
        if IsMethodNode(child) {
          methods := methods + [child];
        }
        i := i + 1;
      }
      assert body.value.children[..i] == body.value.children;
    }
  }

  /** SubModules: the modules directly in the body, in order; `panicked` when a scope node has
      no body. */
  method SubModules(node: PNode) returns (modules: seq<PNode>, panicked: bool)
    ensures panicked <==> !BodyPresent(node)
    ensures !panicked ==> modules == Seqs.Filter(BodyChildren(node), IsModuleNode)
  {
    modules, panicked := [], false;
    if IsScopeNode(node) {
      var body := Body(node);
      if body.None? {
        return [], true;
      }
      var i := 0;
      while i < |body.value.children|
        invariant 0 <= i <= |body.value.children|
        invariant modules == Seqs.Filter(body.value.children[..i], IsModuleNode)
      {
        var child := body.value.children[i];
        assert body.value.children[..i + 1][..i] == body.value.children[..i];
        if IsModuleNode(child) {
          modules := modules + [child];
        }
        i := i + 1;
      }
      assert body.value.children[..i] == body.value.children;
    }
  }

  /**
   * What the filters return: exactly the direct body children of the right kind (nothing deeper,
   * nothing of another kind), and nothing at all for a node that is not a module, class or
   * singleton class.
   */
  lemma FilterMembers(node: PNode, keep: PNode -> bool, x: PNode)
    requires BodyPresent(node)
    ensures x in Seqs.Filter(BodyChildren(node), keep) <==>
              IsScopeNode(node) && x in node.children[0].children && keep(x)
    ensures !IsScopeNode(node) ==> Seqs.Filter(BodyChildren(node), keep) == []
  {
    Seqs.FilterSound(BodyChildren(node), keep);
    Seqs.FilterComplete(BodyChildren(node), keep);
  }

  /** The three kind tests exclude one another, so the three results for one node share no
      element. */
  lemma ResultsDisjoint(node: PNode)
    requires BodyPresent(node)
    ensures var cs := Seqs.Filter(BodyChildren(node), IsClassNode);
      var ms := Seqs.Filter(BodyChildren(node), IsMethodNode);
      var mods := Seqs.Filter(BodyChildren(node), IsModuleNode);
      (forall x :: x in cs ==> x !in ms && x !in mods) && (forall x :: x in ms ==> x !in mods)
  {
    Seqs.FilterSound(BodyChildren(node), IsClassNode);
    Seqs.FilterSound(BodyChildren(node), IsMethodNode);
    Seqs.FilterSound(BodyChildren(node), IsModuleNode);
  }
}
