/**
 * The table of open documents: `didOpen` stores a document under its URI, `didChange` replaces
 * the content of an open document and parses it again. Decoding the notification parameters
 * and the parser are inputs: a decoding result, and a function from the previous tree and the
 * content to a new tree or an error.
 */
module DidOpen {
  import opened Wrappers
  import opened Text

  /** A handle to a parse tree. */
  type Tree = nat

  /** ParseCtx(oldTree, content). */
  type Parser = (Option<Tree>, seq<byte>) -> Result<Tree, string>

  datatype DidOpenParams = DidOpenParams(uri: string, text: seq<byte>)

  datatype DidChangeParams = DidChangeParams(uri: string, contentChanges: seq<seq<byte>>)

  const FileNeverOpened: string := "file never opened"

  /** An open document. The tree is nil after a failed re-parse. */
  class TextDocument {
    var content: seq<byte>
    var tree: Option<Tree>

    constructor (content: seq<byte>, tree: Tree)
      ensures this.content == content && this.tree == Some(tree)
    {
      this.content := content;
      this.tree := Some(tree);
    }
  }

  class Handler {
    var files: map<string, TextDocument>

    /** Every URI has its own document object. */
    predicate Valid()
      reads this
    {
      forall u, v :: u in files && v in files && u != v ==> files[u] != files[v]
    }

    constructor ()
      ensures files == map[] && Valid()
    {
      files := map[];
    }

    /** DidOpenHandler: store a new document under the URI, replacing any earlier one; nothing
        changes when the parameters do not decode or the text does not parse. */
    method DidOpenHandler(params: Result<DidOpenParams, string>, parse: Parser) returns (err: Option<string>)
      requires Valid()
      modifies this
      ensures Valid()
      ensures params.Err? ==> err == Some(params.error) && files == old(files)
      ensures params.Ok? && parse(None, params.value.text).Err? ==>
                err == Some(parse(None, params.value.text).error) && files == old(files)
      ensures params.Ok? && parse(None, params.value.text).Ok? ==>
                var uri := params.value.uri;
                err == None && uri in files && fresh(files[uri]) &&
                files[uri].content == params.value.text &&
                files[uri].tree == Some(parse(None, params.value.text).value) &&
                files.Keys == old(files.Keys) + {uri} &&
                (forall u :: u in files && u != uri ==> files[u] == old(files[u]))
    {
      if params.Err? {
        return Some(params.error);
      }
      var tree := parse(None, params.value.text);
      if tree.Err? {
        return Some(tree.error);
      }
      var doc := new TextDocument(params.value.text, tree.value);
      files := files[params.value.uri := doc];
      return None;
    }

    /** DidChangeHandler: replace the content of an open document with the first change and
        parse it again from the previous tree. The content stays replaced when parsing fails,
        and the tree is then nil. */
    method DidChangeHandler(params: Result<DidChangeParams, string>, parse: Parser) returns (err: Option<string>)
      requires Valid()
      requires params.Ok? && params.value.uri in files ==> |params.value.contentChanges| > 0
      modifies files.Values
      ensures files == old(files)
      ensures params.Err? ==> err == Some(params.error)
      ensures params.Ok? && params.value.uri !in files ==> err == Some(FileNeverOpened)
      ensures params.Err? || params.value.uri !in files ==>
                forall u :: u in files ==> files[u].content == old(files[u].content) && files[u].tree == old(files[u].tree)
      ensures params.Ok? && params.value.uri in files ==>
                var doc := files[params.value.uri];
                var text := params.value.contentChanges[0];
                var tree := parse(old(doc.tree), text);
                doc.content == text &&
                (tree.Ok? ==> err == None && doc.tree == Some(tree.value)) &&
                (tree.Err? ==> err == Some(tree.error) && doc.tree == None) &&
                forall u :: u in files && u != params.value.uri ==>
                  files[u].content == old(files[u].content) && files[u].tree == old(files[u].tree)
    {
      if params.Err? {
        return Some(params.error);
      }
      if params.value.uri !in files {
        return Some(FileNeverOpened);
      }
      var doc := files[params.value.uri];
      doc.content := params.value.contentChanges[0];
      var tree := parse(doc.tree, doc.content);
      if tree.Err? {
        doc.tree := None;
        return Some(tree.error);
      }
      doc.tree := Some(tree.value);
      return None;
    }
  }
}
