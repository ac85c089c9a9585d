/**
 * The declarations of the tree-sitter based index: classes, modules and three kinds of method,
 * each with a name, an optional enclosing declaration and a source range, and the four accessors
 * every declaration answers (`Identifier`, `ParentName`, `Range`, `Type`).
 *
 * The Go structs also carry `Docs`, `Children` and `SuperClass`, which nothing ever sets; they
 * are not part of the model.
 */
module AnalysisTypes {
  import opened Wrappers

  /** A zero-based line and column in a file. */
  datatype Location = Location(line: int, character: int, file: string)

  datatype Range = Range(start: Location, end: Location)

  /** The five Node implementations. `parent` is the enclosing declaration, if any. */
  datatype Decl =
    | ClassDecl(name: string, parent: Option<Decl>, r: Range)
    | ModuleDecl(name: string, parent: Option<Decl>, location: Location)
    | MethodDecl(name: string, parent: Option<Decl>, r: Range)
    | SingletonMethodDecl(name: string, parent: Option<Decl>, r: Range)
    | AliasMethodDecl(name: string, parent: Option<Decl>, r: Range)

  /** Identifier(): the declared name, whatever the variant. */
  function Identifier(d: Decl): (id: string)
    ensures id == d.name
  {
    match d
    case ClassDecl(name, _, _) => name
    case ModuleDecl(name, _, _) => name
    case MethodDecl(name, _, _) => name
    case SingletonMethodDecl(name, _, _) => name
    case AliasMethodDecl(name, _, _) => name
  }

  /** MethodDecl.ParentName dereferences its parent without a nil check. */
  predicate HasParentName(d: Decl) {
    !(d.MethodDecl? && d.parent.None?)
  }

  /** ParentName(): the bare name of the enclosing declaration (one level only, never a path
      through the grandparents), or "" at the top level. */
  function ParentName(d: Decl): (p: string)
    requires HasParentName(d)
    ensures d.parent.None? ==> p == ""
    ensures d.parent.Some? ==> p == d.parent.value.name
  {
    match d
    case MethodDecl(_, parent, _) => Identifier(parent.value)
    case _ => if d.parent.None? then "" else Identifier(d.parent.value)
  }

  /** Range(): the stored range, except for a module, which only stores where it starts. */
  function DeclRange(d: Decl): (r: Range)
    ensures d.ModuleDecl? ==> r.start == r.end == d.location
    ensures !d.ModuleDecl? ==> r == d.r
  {
    match d
    case ModuleDecl(_, _, location) => Range(location, location)
    case ClassDecl(_, _, r) => r
    case MethodDecl(_, _, r) => r
    case SingletonMethodDecl(_, _, r) => r
    case AliasMethodDecl(_, _, r) => r
  }

  /** Type(): the tree-sitter node type the declaration came from. */
  function DeclType(d: Decl): string {
    match d
    case ClassDecl(_, _, _) => "class_definition"
    case ModuleDecl(_, _, _) => "module_definition"
    case MethodDecl(_, _, _) => "method_definition"
    case SingletonMethodDecl(_, _, _) => "singleton_method_definition"
    case AliasMethodDecl(_, _, _) => "alias_method_definition"
  }

  /** The five type tags tell the variants apart. */
  lemma TypeTagsDistinct(a: Decl, b: Decl)
    ensures DeclType(a) == DeclType(b) <==>
              (a.ClassDecl? && b.ClassDecl?) || (a.ModuleDecl? && b.ModuleDecl?) ||
              (a.MethodDecl? && b.MethodDecl?) || (a.SingletonMethodDecl? && b.SingletonMethodDecl?) ||
              (a.AliasMethodDecl? && b.AliasMethodDecl?)
  {
    var ta, tb := DeclType(a), DeclType(b);
    if ta == tb {
      // Distinct tags differ in length or in a character near the front.
      assert ta[0] == tb[0] && |ta| == |tb|;
    }
  }
}
