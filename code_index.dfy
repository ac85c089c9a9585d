/**
 * The prism based declaration index: flat registries of modules, classes and methods without
 * parent links. Declarations are appended before their body is indexed (pre-order), positions
 * are byte offsets turned into line and column by counting, and the first offset that lies
 * outside the file aborts the rest of the file.
 *
 * `IndexList` and `Dispatch` are the functional reference for what indexing appends and whether
 * it fails; the methods of `Index` are proved to follow them.
 */
module CodeIndex {
  import opened Wrappers
  import opened Text
  import Seqs
  import opened Codebase
  import opened Prism

  const OutOfBounds: string := "fileOffset is out of bounds"
  const Newline: byte := 10

  /** The number of line feeds among the first `k` bytes. */
  function LineOf(src: seq<byte>, k: nat): nat
    requires k <= |src|
  {
    if k == 0 then 0 else LineOf(src, k - 1) + (if src[k - 1] == Newline then 1 else 0)
  }

  /** The number of bytes between the last line feed before `k` and `k`. */
  function ColumnOf(src: seq<byte>, k: nat): nat
    requires k <= |src|
  {
    if k == 0 then 0 else if src[k - 1] == Newline then 0 else ColumnOf(src, k - 1) + 1
  }

  /** What locationFromOffset computes: an error unless the offset is a byte of the file. */
  function Locate(src: seq<byte>, path: string, offset: int): (r: Result<Location, string>)
    ensures r.Ok? <==> 0 <= offset < |src|
    ensures r.Err? ==> r.error == OutOfBounds
    ensures r.Ok? ==> r.value.fileURI == path
  {
    if offset < 0 || offset >= |src| then Err(OutOfBounds)
    else Ok(Location(LineOf(src, offset), ColumnOf(src, offset), path))
  }

  /** The line is the number of line feeds before the offset. */
  lemma {:induction false} LineOfCounts(src: seq<byte>, k: nat)
    requires k <= |src|
    ensures LineOf(src, k) == multiset(src[..k])[Newline]
  {
    if k > 0 {
      LineOfCounts(src, k - 1);
      assert src[..k] == src[..k - 1] + [src[k - 1]];
    }
  }

  /** The column counts the bytes after the last line feed before the offset, or all of them
      when there is none. */
  lemma {:induction false} ColumnOfCounts(src: seq<byte>, k: nat)
    requires k <= |src|
    ensures var c := ColumnOf(src, k);
      c <= k && (forall i :: k - c <= i < k ==> src[i] != Newline) && (c == k || src[k - c - 1] == Newline)
  {
    if k > 0 && src[k - 1] != Newline {
      ColumnOfCounts(src, k - 1);
    }
  }

  /** locationFromOffset: the bounds check, then one pass over the bytes before the offset. */
  method LocationFromOffset(src: seq<byte>, path: string, offset: int) returns (r: Result<Location, string>)
    ensures r == Locate(src, path, offset)
  {
    if offset < 0 || offset >= |src| {
      return Err(OutOfBounds);
    }
    var line := 0;
    var lineOffset := 0;
    var i := 0;
    while i < offset
      invariant 0 <= i <= offset
      invariant line == LineOf(src, i) && lineOffset == ColumnOf(src, i)
    {
      if src[i] == Newline {
        line := line + 1;
        lineOffset := 0;
      } else {
        lineOffset := lineOffset + 1;
      }
      i := i + 1;
    }
    return Ok(Location(line, lineOffset, path));
  }

  /** The end of a file, one past its last byte, is not a valid offset: a declaration whose end
      keyword closes the file cannot be located. */
  lemma EndOfFileRejected(src: seq<byte>, path: string)
    ensures Locate(src, path, |src|) == Err(OutOfBounds)
  {
  }

  predicate HasPrefix(s: string, prefix: string) {
    |prefix| <= |s| && s[..|prefix|] == prefix
  }

  predicate HasSuffix(s: string, suffix: string) {
    |suffix| <= |s| && s[|s| - |suffix|..] == suffix
  }

  /** The directories the walk does not enter: hidden ones and three dependency folders. */
  predicate SkipDirectory(name: string) {
    HasPrefix(name, ".") || name == "node_modules" || name == "npm-workspaces" || name == "vendor"
  }

  /** The files the walk indexes. */
  predicate IsRubyFile(name: string) {
    HasSuffix(name, ".rb")
  }

  lemma PathFilterExamples()
    ensures SkipDirectory(".git") && SkipDirectory("vendor") && !SkipDirectory("lib")
    ensures !SkipDirectory("vendors") && !SkipDirectory("app.rb")
    ensures IsRubyFile("foo.rb") && IsRubyFile(".rb") && !IsRubyFile("foo.rbx") && !IsRubyFile("rb")
  {
    assert "lib"[..1] == "l";
    assert "vendors"[..1] == "v";
    assert "app.rb"[..1] == "a";
    assert "foo.rb"[3..] == ".rb";
    assert "foo.rbx"[4..] == "rbx";
  }

  /** The three registries. */
  datatype Registry = Registry(classes: seq<ClassDecl>, modules: seq<ModuleDecl>, methods: seq<MethodDecl>)

  /** The registries after indexing, and the error that stopped it, if any. */
  datatype Outcome = Outcome(reg: Registry, err: Option<string>)

  /** indexProgram on a non-nil node: its first `k` children, stopping at the first error. */
  function IndexList(reg: Registry, n: PNode, k: nat, path: string, src: seq<byte>): Outcome
    requires k <= |n.children|
    decreases n, 0, k
  {
    if k == 0 then Outcome(reg, None)
    else
      var o := IndexList(reg, n, k - 1, path, src);
      if o.err.Some? then o else Dispatch(o.reg, n.children[k - 1], path, src)
  }

  /** indexProgram on a Body, which may be nil. */
  function BodyOutcome(reg: Registry, c: PNode, path: string, src: seq<byte>): Outcome
    decreases c, 0
  {
    if c.children == [] then Outcome(reg, None)
    else IndexList(reg, c.children[0], |c.children[0].children|, path, src)
  }

  /** The switch of indexProgram: modules, classes and methods are indexed, statements are
      descended into, every other node is ignored. */
  function Dispatch(reg: Registry, c: PNode, path: string, src: seq<byte>): Outcome
    decreases c, 1
  {
    match c.kind
    case ModuleNode(name, start, end) =>
      var s := Locate(src, path, start);
      var e := Locate(src, path, end);
      if s.Err? then Outcome(reg, Some(s.error))
      else if e.Err? then Outcome(reg, Some(e.error))
      else BodyOutcome(reg.(modules := reg.modules + [ModuleDecl(name, Range(s.value, e.value))]), c, path, src)
    case ClassNode(name, start, end) =>
      var s := Locate(src, path, start);
      var e := Locate(src, path, end);
      if s.Err? then Outcome(reg, Some(s.error))
      else if e.Err? then Outcome(reg, Some(e.error))
      else BodyOutcome(reg.(classes := reg.classes + [ClassDecl(name, Range(s.value, e.value))]), c, path, src)
    case DefNode(name, start, end) =>
      var s := Locate(src, path, start);
      var e := if end.None? then s else Locate(src, path, end.value);
      if s.Err? then Outcome(reg, Some(s.error))
      else if e.Err? then Outcome(reg, Some(e.error))
      else Outcome(reg.(methods := reg.methods + [MethodDecl(name, Range(s.value, e.value))]), None)
    case StatementsNode => IndexList(reg, c, |c.children|, path, src)
    case _ => Outcome(reg, None)
  }

  /** indexProgram, nil check included. */
  function ProgramOutcome(reg: Registry, node: Option<PNode>, path: string, src: seq<byte>): Outcome {
    if node.None? then Outcome(reg, None) else IndexList(reg, node.value, |node.value.children|, path, src)
  }

  /** Indexing only appends: every registry before is a prefix of the one after. */
  predicate Extends(a: Registry, b: Registry) {
    a.classes <= b.classes && a.modules <= b.modules && a.methods <= b.methods
  }

  lemma ExtendsTrans(a: Registry, b: Registry, c: Registry)
    requires Extends(a, b) && Extends(b, c)
    ensures Extends(a, c)
  {
    assert b.classes[..|a.classes|] == a.classes;
    assert b.modules[..|a.modules|] == a.modules;
    assert b.methods[..|a.methods|] == a.methods;
  }

  lemma {:induction false} IndexListExtends(reg: Registry, n: PNode, k: nat, path: string, src: seq<byte>)
    requires k <= |n.children|
    ensures Extends(reg, IndexList(reg, n, k, path, src).reg)
    decreases n, 0, k
  {
    if k > 0 {
      var o := IndexList(reg, n, k - 1, path, src);
      IndexListExtends(reg, n, k - 1, path, src);
      if o.err.None? {
        DispatchExtends(o.reg, n.children[k - 1], path, src);
        ExtendsTrans(reg, o.reg, Dispatch(o.reg, n.children[k - 1], path, src).reg);
      }
    }
  }

  lemma {:induction false} BodyExtends(reg: Registry, c: PNode, path: string, src: seq<byte>)
    ensures Extends(reg, BodyOutcome(reg, c, path, src).reg)
    decreases c, 0
  {
    if c.children != [] {
      IndexListExtends(reg, c.children[0], |c.children[0].children|, path, src);
    }
  }

  lemma {:induction false} DispatchExtends(reg: Registry, c: PNode, path: string, src: seq<byte>)
    ensures Extends(reg, Dispatch(reg, c, path, src).reg)
    decreases c, 1
  {
    match c.kind
    case ModuleNode(name, start, end) =>
      var s := Locate(src, path, start);
      var e := Locate(src, path, end);
      if s.Ok? && e.Ok? {
        var reg' := reg.(modules := reg.modules + [ModuleDecl(name, Range(s.value, e.value))]);
        BodyExtends(reg', c, path, src);
        ExtendsTrans(reg, reg', BodyOutcome(reg', c, path, src).reg);
      }
    case ClassNode(name, start, end) =>
      var s := Locate(src, path, start);
      var e := Locate(src, path, end);
      if s.Ok? && e.Ok? {
        var reg' := reg.(classes := reg.classes + [ClassDecl(name, Range(s.value, e.value))]);
        BodyExtends(reg', c, path, src);
        ExtendsTrans(reg, reg', BodyOutcome(reg', c, path, src).reg);
      }
    case DefNode(_, _, _) =>
    case StatementsNode =>
      IndexListExtends(reg, c, |c.children|, path, src);
    case _ =>
  }

  /**
   * Pre-order: when a module or class can be located, its declaration is the first one appended
   * to its registry, ahead of everything in its body, and it stays even when its body fails.
   */
  lemma PreOrder(reg: Registry, c: PNode, path: string, src: seq<byte>)
    requires c.kind.ModuleNode? || c.kind.ClassNode?
    requires c.kind.ModuleNode? ==> 0 <= c.kind.moduleKeywordStart < |src|
    requires c.kind.ClassNode? ==> 0 <= c.kind.classKeywordStart < |src|
    requires 0 <= c.kind.endKeywordEnd < |src|
    ensures var r := Dispatch(reg, c, path, src).reg;
      c.kind.ModuleNode? ==>
        |r.modules| > |reg.modules| && r.modules[|reg.modules|].name == c.kind.name &&
        r.modules[|reg.modules|].r == Range(Locate(src, path, c.kind.moduleKeywordStart).value,
                                            Locate(src, path, c.kind.endKeywordEnd).value)
    ensures var r := Dispatch(reg, c, path, src).reg;
      c.kind.ClassNode? ==>
        |r.classes| > |reg.classes| && r.classes[|reg.classes|].name == c.kind.name &&
        r.classes[|reg.classes|].r == Range(Locate(src, path, c.kind.classKeywordStart).value,
                                            Locate(src, path, c.kind.endKeywordEnd).value)
  {
    match c.kind
    case ModuleNode(name, start, end) =>
      var d := ModuleDecl(name, Range(Locate(src, path, start).value, Locate(src, path, end).value));
      var reg' := reg.(modules := reg.modules + [d]);
      BodyExtends(reg', c, path, src);
      var r := BodyOutcome(reg', c, path, src).reg;
      assert r.modules[..|reg'.modules|] == reg'.modules;
      assert r.modules[|reg.modules|] == reg'.modules[|reg.modules|];
    case ClassNode(name, start, end) =>
      var d := ClassDecl(name, Range(Locate(src, path, start).value, Locate(src, path, end).value));
      var reg' := reg.(classes := reg.classes + [d]);
      BodyExtends(reg', c, path, src);
      var r := BodyOutcome(reg', c, path, src).reg;
      assert r.classes[..|reg'.classes|] == reg'.classes;
      assert r.classes[|reg.classes|] == reg'.classes[|reg.classes|];
  }

  /** The first error stops the walk over the siblings: nothing after it is indexed. */
  lemma {:induction false} FirstErrorStops(reg: Registry, n: PNode, k: nat, k': nat, path: string, src: seq<byte>)
    requires k <= k' <= |n.children|
    requires IndexList(reg, n, k, path, src).err.Some?
    ensures IndexList(reg, n, k', path, src) == IndexList(reg, n, k, path, src)
    decreases k'
  {
    if k' > k {
      FirstErrorStops(reg, n, k, k' - 1, path, src);
    }
  }

  /** A method without an end keyword gets a one-point range; a method's body is never
      indexed. */
  lemma MethodOnePointRange(reg: Registry, c: PNode, path: string, src: seq<byte>)
    requires c.kind.DefNode? && c.kind.defEndKeywordEnd.None?
    requires 0 <= c.kind.defKeywordStart < |src|
    ensures var o := Dispatch(reg, c, path, src);
      o.err.None? && o.reg.classes == reg.classes && o.reg.modules == reg.modules &&
      |o.reg.methods| == |reg.methods| + 1 && o.reg.methods[..|reg.methods|] == reg.methods &&
      o.reg.methods[|reg.methods|].r.start == o.reg.methods[|reg.methods|].r.end
  {
    var o := Dispatch(reg, c, path, src);
    assert o.reg.methods[..|reg.methods|] == reg.methods;
  }

  /** A result of the directory walk: a parsed `.rb` file, or a read or parse failure, which
      ends the walk. */
  datatype FileResult = Parsed(path: string, src: seq<byte>, tree: PNode) | Failed(err: string)

  /** The registries after the walk: every file before the first failure, each file's own error
      discarded. */
  function WalkRegistry(reg: Registry, walk: seq<FileResult>): Registry
    decreases |walk|
  {
    if walk == [] || walk[0].Failed? then reg
    else
      var f := walk[0];
      WalkRegistry(IndexList(reg, f.tree, |f.tree.children|, f.path, f.src).reg, walk[1..])
  }

  predicate WalkFails(walk: seq<FileResult>) {
    exists i :: 0 <= i < |walk| && walk[i].Failed?
  }

  class Index {
    const root: string
    var indexed: bool
    var classDecls: seq<ClassDecl>
    var moduleDecls: seq<ModuleDecl>
    var methodDecls: seq<MethodDecl>

    function Reg(): Registry
      reads this
    {
      Registry(classDecls, moduleDecls, methodDecls)
    }

    /** New: an empty index over a workspace root, not yet indexed. */
    constructor New(path: string)
      ensures root == path && !indexed && Reg() == Registry([], [], [])
    {
      root := path;
      indexed := false;
      classDecls, moduleDecls, methodDecls := [], [], [];
    }

    /** Start: index every file of the walk. A failed walk ends in logger.Fatal, which exits
        the process: `fatal` reports it, and the index is then never marked as finished. */
    method Start(walk: seq<FileResult>) returns (fatal: bool)
      modifies this
      ensures fatal <==> WalkFails(walk)
      ensures indexed == (old(indexed) || !fatal)
      ensures Reg() == WalkRegistry(old(Reg()), walk)
    {
      var i := 0;
      while i < |walk| && walk[i].Parsed?
        invariant 0 <= i <= |walk| && indexed == old(indexed)
        invariant forall j :: 0 <= j < i ==> walk[j].Parsed?
        invariant WalkRegistry(Reg(), walk[i..]) == WalkRegistry(old(Reg()), walk)
      {
        var f := walk[i];
        assert walk[i..][1..] == walk[i + 1..];
        var _ := IndexProgram(Some(f.tree), f.path, f.src);
        i := i + 1;
      }
      if i < |walk| {
        return true;
      }
      indexed := true;
      return false;
    }

    /** indexProgram: nothing for a nil node, otherwise its children in order. */
    method IndexProgram(node: Option<PNode>, path: string, src: seq<byte>) returns (err: Option<string>)
      modifies this
      ensures Outcome(Reg(), err) == ProgramOutcome(old(Reg()), node, path, src)
      ensures indexed == old(indexed)
    {
      if node.None? {
        return None;
      }
      err := IndexNodes(node.value, path, src);
    }

    /** The loop of indexProgram: dispatch every child, returning at the first error. */
    method IndexNodes(node: PNode, path: string, src: seq<byte>) returns (err: Option<string>)
      modifies this
      ensures Outcome(Reg(), err) == IndexList(old(Reg()), node, |node.children|, path, src)
      ensures indexed == old(indexed)
      decreases node, 0
    {
      var j := 0;
      while j < |node.children|
        invariant 0 <= j <= |node.children| && indexed == old(indexed)
        invariant Outcome(Reg(), None) == IndexList(old(Reg()), node, j, path, src)
      {
        err := IndexChild(node.children[j], path, src);
        if err.Some? {
          FirstErrorStops(old(Reg()), node, j + 1, |node.children|, path, src);
          return;
        }
        j := j + 1;
      }
      return None;
    }

    /** The switch of indexProgram on one child. */
    method IndexChild(child: PNode, path: string, src: seq<byte>) returns (err: Option<string>)
      modifies this
      ensures Outcome(Reg(), err) == Dispatch(old(Reg()), child, path, src)
      ensures indexed == old(indexed)
      decreases child, 2
    {
      match child.kind
      case ModuleNode(_, _, _) =>
        err := IndexModule(child, path, src);
      case ClassNode(_, _, _) =>
        err := IndexClass(child, path, src);
      case DefNode(_, _, _) =>
        err := IndexMethod(child, path, src);
      case StatementsNode =>
        err := IndexNodes(child, path, src);
      case _ =>
        err := None;
    }

    /** The body of indexModule and indexClass: indexProgram on a Body that may be nil. */
    method IndexBody(node: PNode, path: string, src: seq<byte>) returns (err: Option<string>)
      modifies this
      ensures Outcome(Reg(), err) == BodyOutcome(old(Reg()), node, path, src)
      ensures indexed == old(indexed)
      decreases node, 0
    {
      if node.children == [] {
        return None;
      }
      err := IndexNodes(node.children[0], path, src);
    }

    /** indexModule: locate the module keyword and the end of the end keyword, append the
        module, then index its body. */
    method IndexModule(node: PNode, path: string, src: seq<byte>) returns (err: Option<string>)
      requires node.kind.ModuleNode?
      modifies this
      ensures Outcome(Reg(), err) == Dispatch(old(Reg()), node, path, src)
      ensures indexed == old(indexed)
      decreases node, 1
    {
      var startLocation := LocationFromOffset(src, path, node.kind.moduleKeywordStart);
      if startLocation.Err? {
        return Some(startLocation.error);
      }
      var endLocation := LocationFromOffset(src, path, node.kind.endKeywordEnd);
      if endLocation.Err? {
        return Some(endLocation.error);
      }
      moduleDecls := moduleDecls + [ModuleDecl(node.kind.name, Range(startLocation.value, endLocation.value))];
      err := IndexBody(node, path, src);
    }

    /** indexClass: as indexModule, for a class. */
    method IndexClass(node: PNode, path: string, src: seq<byte>) returns (err: Option<string>)
      requires node.kind.ClassNode?
      modifies this
      ensures Outcome(Reg(), err) == Dispatch(old(Reg()), node, path, src)
      ensures indexed == old(indexed)
      decreases node, 1
    {
      var startLoc := LocationFromOffset(src, path, node.kind.classKeywordStart);
      if startLoc.Err? {
        return Some(startLoc.error);
      }
      var endLoc := LocationFromOffset(src, path, node.kind.endKeywordEnd);
      if endLoc.Err? {
        return Some(endLoc.error);
      }
      classDecls := classDecls + [ClassDecl(node.kind.name, Range(startLoc.value, endLoc.value))];
      err := IndexBody(node, path, src);
    }

    /** indexMethod: the range ends where the def keyword starts unless there is an end
        keyword; the body is not indexed. */
    method IndexMethod(node: PNode, path: string, src: seq<byte>) returns (err: Option<string>)
      requires node.kind.DefNode?
      modifies this
      ensures Outcome(Reg(), err) == Dispatch(old(Reg()), node, path, src)
      ensures indexed == old(indexed)
    {
      var startLoc := LocationFromOffset(src, path, node.kind.defKeywordStart);
      if startLoc.Err? {
        return Some(startLoc.error);
      }
      var endLoc := startLoc;
      if node.kind.defEndKeywordEnd.Some? {
        endLoc := LocationFromOffset(src, path, node.kind.defEndKeywordEnd.value);
        if endLoc.Err? {
          return Some(endLoc.error);
        }
      }
      methodDecls := methodDecls + [MethodDecl(node.kind.name, Range(startLoc.value, endLoc.value))];
      return None;
    }

    /** LookupConstant: the ranges of the modules, then of the classes, with the given name;
        found exactly when there is at least one. */
    method LookupConstant(constant: string) returns (res: seq<Range>, found: bool)
      ensures !indexed ==> res == [] && !found
      ensures indexed ==> res == ConstantRanges(moduleDecls, classDecls, constant) && (found <==> res != [])
    {
      if !indexed {
        return [], false;
      }
      var classes := Filter(classDecls, ClassNamed(constant));
      var classRanges := Mapp(classes, ClassRange);
      var modules := Filter(moduleDecls, ModuleNamed(constant));
      var moduleRanges := Mapp(modules, ModuleRange);
      res := [];
      res := res + moduleRanges;
      res := res + classRanges;
      return res, |res| > 0;
    }

    /** LookupIdentifier: the ranges of the methods with the given name; found exactly when
        there is at least one. */
    method LookupIdentifier(ident: string) returns (res: seq<Range>, found: bool)
      ensures !indexed ==> res == [] && !found
      ensures indexed ==> res == IdentifierRanges(methodDecls, ident) && (found <==> res != [])
    {
      if !indexed {
        return [], false;
      }
      var methods := Filter(methodDecls, MethodNamed(ident));
      res := Mapp(methods, MethodRange);
      return res, |res| > 0;
    }
  }

  function ClassNamed(name: string): ClassDecl -> bool {
    (c: ClassDecl) => c.name == name
  }

  function ModuleNamed(name: string): ModuleDecl -> bool {
    (m: ModuleDecl) => m.name == name
  }

  function MethodNamed(name: string): MethodDecl -> bool {
    (m: MethodDecl) => m.name == name
  }

  function ClassRange(c: ClassDecl): Range {
    c.DeclRange()
  }

  function ModuleRange(m: ModuleDecl): Range {
    m.DeclRange()
  }

  function MethodRange(m: MethodDecl): Range {
    m.DeclRange()
  }

  /** The ranges LookupConstant returns: named modules first, then named classes. */
  function ConstantRanges(modules: seq<ModuleDecl>, classes: seq<ClassDecl>, name: string): seq<Range> {
    Seqs.Map(Seqs.Filter(modules, ModuleNamed(name)), ModuleRange) +
    Seqs.Map(Seqs.Filter(classes, ClassNamed(name)), ClassRange)
  }

  /** The ranges LookupIdentifier returns. */
  function IdentifierRanges(methods: seq<MethodDecl>, name: string): seq<Range> {
    Seqs.Map(Seqs.Filter(methods, MethodNamed(name)), MethodRange)
  }

  /** A range is in a LookupConstant result exactly when a module or class of that name has
      it. */
  lemma ConstantRangesMembers(modules: seq<ModuleDecl>, classes: seq<ClassDecl>, name: string, r: Range)
    ensures r in ConstantRanges(modules, classes, name) <==>
              (exists m :: m in modules && m.name == name && m.r == r) ||
              (exists c :: c in classes && c.name == name && c.r == r)
  {
    Seqs.MapFilterMembers(modules, ModuleNamed(name), ModuleRange, r);
    Seqs.MapFilterMembers(classes, ClassNamed(name), ClassRange, r);
  }

  /** A LookupConstant result is empty exactly when no module and no class has that name. */
  lemma ConstantRangesEmpty(modules: seq<ModuleDecl>, classes: seq<ClassDecl>, name: string)
    ensures ConstantRanges(modules, classes, name) == [] <==>
              (forall m :: m in modules ==> m.name != name) && (forall c :: c in classes ==> c.name != name)
  {
    Seqs.FilterEmpty(modules, ModuleNamed(name));
    Seqs.FilterEmpty(classes, ClassNamed(name));
  }

  /** A range is in a LookupIdentifier result exactly when a method of that name has it; the
      result is empty exactly when no method has that name. */
  lemma IdentifierRangesMembers(methods: seq<MethodDecl>, name: string, r: Range)
    ensures r in IdentifierRanges(methods, name) <==> exists m :: m in methods && m.name == name && m.r == r
    ensures IdentifierRanges(methods, name) == [] <==> forall m :: m in methods ==> m.name != name
  {
    Seqs.MapFilterMembers(methods, MethodNamed(name), MethodRange, r);
    Seqs.FilterEmpty(methods, MethodNamed(name));
  }

  /** filter: the elements `f` accepts, in order. */
  method Filter<E>(s: seq<E>, f: E -> bool) returns (res: seq<E>)
    ensures res == Seqs.Filter(s, f)
  {
    res := [];
    var i := 0;
    while i < |s|
      invariant 0 <= i <= |s| && res == Seqs.Filter(s[..i], f)
    {
      assert s[..i + 1][..i] == s[..i];
      if f(s[i]) {
        res := res + [s[i]];
      }
      i := i + 1;
    }
    assert s[..i] == s;
  }

  /** mapp: `f` applied to every element, in order. */
  method Mapp<E, R>(s: seq<E>, f: E -> R) returns (res: seq<R>)
    ensures res == Seqs.Map(s, f)
  {
    res := [];
    var i := 0;
    while i < |s|
      invariant 0 <= i <= |s| && |res| == i
      invariant forall j :: 0 <= j < i ==> res[j] == f(s[j])
    {
      res := res + [f(s[i])];
      i := i + 1;
    }
  }
}
