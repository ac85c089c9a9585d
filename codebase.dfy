/** The declarations of the prism based index: a name and a source range each. The Go structs'
    nested declaration lists and method arguments are never filled in and are not modelled. */
module Codebase {
  /** The node type tags. */
  type NodeType = int

  const NodeModule: NodeType := 0
  const NodeClass: NodeType := 1
  const NodeMethod: NodeType := 2

  /** A zero-based line and byte column in a file. */
  datatype Location = Location(line: int, character: int, fileURI: string)

  datatype Range = Range(start: Location, end: Location)

  datatype ModuleDecl = ModuleDecl(name: string, r: Range)
  {
    /** Range(): the stored range. */
    function DeclRange(): (range: Range)
    {
      r
    }

    /** Type(): always NodeModule. */
    function Type(): (t: NodeType)
    {
      NodeModule
    }
  }

  datatype ClassDecl = ClassDecl(name: string, r: Range)
  {
    /** Range(): the stored range. */
    function DeclRange(): (range: Range)
    {
      r
    }

    /** Type(): always NodeClass. */
    function Type(): (t: NodeType)
    {
      NodeClass
    }
  }

  datatype MethodDecl = MethodDecl(name: string, r: Range)
  {
    /** Range(): the stored range. */
    function DeclRange(): (range: Range)
    {
      r
    }

    /** Type(): always NodeMethod. */
    function Type(): (t: NodeType)
    {
      NodeMethod
    }
  }

  /** The tags are 0, 1 and 2, so the three declaration kinds report different types. */
  lemma TypesDistinct(m: ModuleDecl, c: ClassDecl, d: MethodDecl)
    ensures m.Type() == 0 && c.Type() == 1 && d.Type() == 2
    ensures m.Type() != c.Type() && c.Type() != d.Type() && m.Type() != d.Type()
  {
  }
}
