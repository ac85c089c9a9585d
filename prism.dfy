/**
 * The part of the prism syntax tree the index and the navigation helpers look at. A node has a
 * kind, with the data of that kind, and children. For a statements node, or any other node,
 * `children` is what Children() reports; for a module, class, singleton class or method
 * definition it is the definition's Body: empty when Body is nil, else the body node alone.
 */
module Prism {
  import opened Wrappers

  datatype Kind =
    | ModuleNode(name: string, moduleKeywordStart: nat, endKeywordEnd: nat)
    | ClassNode(name: string, classKeywordStart: nat, endKeywordEnd: nat)
    | SingletonClassNode
    | DefNode(name: string, defKeywordStart: nat, defEndKeywordEnd: Option<nat>)
    | AliasMethodNode
    | StatementsNode
    | OtherNode(typeName: string)

  datatype PNode = PNode(kind: Kind, children: seq<PNode>)

  /** The kinds that have a Body field. */
  predicate HasBodyField(n: PNode) {
    n.kind.ModuleNode? || n.kind.ClassNode? || n.kind.SingletonClassNode? || n.kind.DefNode?
  }

  /** The Body of a definition, nil when absent. */
  function Body(n: PNode): (b: Option<PNode>)
    requires HasBodyField(n)
    ensures b.Some? <==> n.children != []
  {
    if n.children == [] then None else Some(n.children[0])
  }
}
