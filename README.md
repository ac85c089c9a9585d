# ruby-lsp core, modelled in Dafny

This project models the core of a small Go language server for Ruby and proves properties of that
model. The server is part way through a refactor, so some of its parts exist twice in different forms.

- **Toy lexer and token table** (`token/token.go`, `lexer/lex.go`). Tokens are classified as
  literals, operators or keywords, and the keyword map is looked up to type identifiers.
  `Lexer.Lexer` is a cursor state machine. It keeps `start`, `pos`, `width`, `line`, `col` and the
  column stack `prevCol`, and it emits tokens. The model appends them to a sequence instead of
  sending them on a channel. `Lexer.Scan` is a reference definition of the token stream. The
  lexer's `Run` is proved to emit that stream. On a few short inputs (`Lexer.Panics`: the empty
  input, and a single identifier rune or one of `= ! < > | &`) a backup pops the only pushed
  column, and the final read of the end of the input panics before the closing EOF is sent.
- **Tree-sitter declaration index** (`internal/code/analysis`). Declarations carry parent links
  and are registered in post-order: the children of a module or class come before it. Lookups
  match a constant by its name and the bare name of its parent.
- **Prism declaration index** (`code/index`). The registries are flat and registered in
  pre-order. Locations are computed from byte offsets by a counting loop.
- **Handler helpers.**
  - The nesting chain builder (`handlers/helper.go`).
  - The child filters over prism nodes (`code/navigate/navigate.go`).
  - Completion bucketing (`handlers/completion.go`).
  - The open-documents table (`handlers/did_open.go`).
- **JSON-RPC layer** (`rpc/`).
  - Message shapes and error codes.
  - `Content-Length` framing on write and read.
  - The `Mux` that registers handlers and answers one request per `Process`.

Parse trees are modelled as algebraic datatypes (`AnalysisIndex.SyntaxNode`, `Prism.PNode`).
JSON encoding and decoding, and the parser, are function parameters. Handlers are pure functions.

## Model

| member | source | states |
|---|---|---|
| Token.String | token/token.go:105-114 | the markers, Illegal and values from keywordEnd up print as `token(n)`; every other type prints as its non-empty spelling |
| Token.IsLiteral | token/token.go:127-129 | true exactly for Ident and Int |
| Token.IsOperator | token/token.go:131-133 | true exactly for Assign through GreaterThanEq |
| Token.IsKeywordType | token/token.go:135-137 | true exactly for the ten keyword types Class … Return |
| Token.ClassesDisjoint | token/token.go:18-66 | literal, operator and keyword classes are pairwise disjoint and exclude Illegal and EOF |
| Token.TableUpToComplete | token/token.go:118-125 | init's loop over the keyword range builds exactly the ten-entry keyword map |
| Token.BuildKeywordTable | token/token.go:118-125 | the loop of init yields the keyword map |
| Token.KeywordSpellings | token/token.go:139-142 | IsKeyword holds exactly for the ten keyword spellings |
| Token.TokenForIdent | token/token.go:153-158 | the result differs from Ident exactly when the name is a keyword, and is then a keyword type |
| Token.KeywordSpelling | token/token.go:93-102 | looking up a keyword spelling gives the type whose spelling it is |
| Token.KeywordRoundTrip | token/token.go:153-158 | spelling a keyword type and looking the spelling up gives the type back |
| Token.IsIdentifier | token/token.go:144-151 | false for "" and for keywords; otherwise true exactly when the first rune is a letter or `_` and later runes are letters, digits or `_` |
| Lexer.IdentEnd | lexer/lex.go:166-179 | the end of the maximal run of letters, digits and `_` starting at a position |
| Lexer.IdentEndUnique | lexer/lex.go:162-179 | that end is the only position with identifier runes before it and none at it |
| Lexer.Step | lexer/lex.go:114-160 | one turn of lexText always consumes input and never moves start past pos |
| Lexer.ClassifyCases | lexer/lex.go:114-152 | identifier runes start lexIdent; single and double operators yield operator types, and a doubled bar or ampersand yields Illegal |
| Lexer.StepSpace | lexer/lex.go:116-117 | whitespace emits nothing and moves start to pos |
| Lexer.StepDouble | lexer/lex.go:105-112 | a two-character operator consumes the second character only when it matches, choosing the pass or fail type |
| Lexer.StepSingle | lexer/lex.go:120-145 | a single-character operator emits the pending text up to it with its type |
| Lexer.StepNoCase | lexer/lex.go:114-160 | an unmatched rune is consumed but neither emitted nor ignored, so start stays |
| Lexer.StepIdent | lexer/lex.go:166-179 | an identifier run becomes one token typed by TokenForIdent |
| Lexer.ScanStep | lexer/lex.go:33-38 | the stream from a state is what one step emits followed by the stream from the next state |
| Lexer.StepEmits | lexer/lex.go:51-58 | a step emits at most one token, whose literal is input[start:pos] placed at start, and start then equals pos |
| Lexer.ShapeCons | lexer/lex.go:51-58 | prefixing one in-order slice token keeps the stream's shape |
| Lexer.ScanShape | lexer/lex.go:33-59 | every stream is in-order slices of the input followed by exactly one EOF token with an empty literal |
| Lexer.ScanLoneBar | lexer/lex.go:146-147 | the reference stream of a lone vertical bar is Or then EOF (the program panics on this one-character input before it sends the EOF) |
| Lexer.ScanDoubleBar | lexer/lex.go:146-147 | two vertical bars lex as Illegal |
| Lexer.ScanLeak | lexer/lex.go:114-160 | an unmatched `.` leaks into the next token's literal |
| Lexer.ScanLessEq | lexer/lex.go:105-112 | `a<=b` lexes as Ident, LessThanEq, Ident, EOF with their positions |
| Lexer.ProjectAppend | lexer/lex.go:40-59 | emitting one token extends the projected stream by that token |
| Lexer.Lexer.Lex | lexer/lex.go:23-31 | a new lexer starts at line 1 with start, pos and col 0 and no tokens |
| Lexer.Lexer.Emit | lexer/lex.go:40-59 | EOF is emitted at pos with an empty literal; any other token carries input[start:pos], pos start, and start moves to pos |
| Lexer.Lexer.Next | lexer/lex.go:61-80 | at end of input returns EOF, and with col 0 pops the column stack; otherwise advances one rune, pushes col, and on newline bumps line and resets col |
| Lexer.Lexer.Backup | lexer/lex.go:90-97 | pos goes back by width, col is popped, and line drops when stepping back over a newline |
| Lexer.Lexer.Peek | lexer/lex.go:84-88 | before end of input returns the next rune with pos, col and line unchanged; at the end it pops one column, which leaves a fresh lexer's column stack one short |
| Lexer.Lexer.Ignore | lexer/lex.go:99-101 | start moves to pos |
| Lexer.Lexer.DoubleCharOperator | lexer/lex.go:105-112 | returns the pass type and consumes the next rune exactly when it is the expected one |
| Lexer.Lexer.LexDouble | lexer/lex.go:118-149 | the two-character cases emit the pass or fail token over the pending text |
| Lexer.Lexer.LexSingle | lexer/lex.go:120-145 | the one-character cases emit their token over the pending text |
| Lexer.Lexer.LexRune | lexer/lex.go:114-152 | dispatch on one rune agrees with the reference step, or hands over to lexIdent exactly for identifier runes |
| Lexer.Lexer.LexText | lexer/lex.go:114-160 | at end of input emits EOF and stops; otherwise agrees with the reference step |
| Lexer.Lexer.AbsorbIdent | lexer/lex.go:166-177 | consumes exactly the maximal identifier run |
| Lexer.Lexer.LexIdent | lexer/lex.go:166-179 | emits the identifier token the reference step emits and returns to lexText |
| Lexer.Lexer.Turn | lexer/lex.go:33-38 | one state function call preserves emitted-plus-remaining stream and makes progress |
| Lexer.Lexer.Run | lexer/lex.go:33-38 | without a panic the emitted tokens are the reference stream; a panic comes only at the final EOF; from a fresh lexer the run panics exactly on the inputs of `Panics` |
| AnalysisTypes.Identifier | internal/code/analysis/types.go:41-165 | every variant's Identifier is its stored name |
| AnalysisTypes.ParentName | internal/code/analysis/types.go:45-161 | "" at the top level, else the parent's bare name only; MethodDecl requires a parent |
| AnalysisTypes.DeclRange | internal/code/analysis/types.go:31-148 | a module's range is degenerate at its location; every other range is the stored one |
| AnalysisTypes.TypeTagsDistinct | internal/code/analysis/types.go:37-154 | the five Type tags are equal exactly for the same variant |
| AnalysisIndex.OwnDecl | internal/code/analysis/index.go:87-169 | the declaration built for a node carries the first named child's text and the given parent, with the variant of the node's kind |
| AnalysisIndex.Decls | internal/code/analysis/index.go:87-169 | a node yields declarations exactly when it is a module, class or method, and its own comes last |
| AnalysisIndex.AddAppend | internal/code/analysis/index.go:111-146 | appending in two steps equals appending the concatenation |
| AnalysisIndex.AppendFiltered | internal/code/analysis/index.go:64-85 | filtering two parts in turn equals filtering their concatenation |
| AnalysisIndex.AddSorted | internal/code/analysis/index.go:16-23 | each registry holds only its own variant |
| AnalysisIndex.ParentLaterAppend | internal/code/analysis/index.go:111-146 | a parent found later stays later when more is appended |
| AnalysisIndex.ParentLaterPrepend | internal/code/analysis/index.go:111-146 | a parent found later stays later when declarations are put before |
| AnalysisIndex.DeclsPostOrder | internal/code/analysis/index.go:97-146 | a declaration's own entry comes after all nested entries, and each nested entry's parent appears after it |
| AnalysisIndex.ChildDeclsLinked | internal/code/analysis/index.go:97-144 | children get the enclosing declaration as parent, or one registered later |
| AnalysisIndex.FileDeclsLinked | internal/code/analysis/index.go:64-85 | declarations directly under the root have no parent, and every other parent comes later |
| AnalysisIndex.ConstantLookupMembers | internal/code/analysis/index.go:176-186 | the result holds exactly the classes and modules with that name and parent name, classes first |
| AnalysisIndex.IdentifierLookupMembers | internal/code/analysis/index.go:196-202 | the result holds exactly the methods with that name, parents ignored |
| AnalysisIndex.Index.New | internal/code/analysis/index.go:25-30 | an empty, unfinished index over the root |
| AnalysisIndex.Index.Start | internal/code/analysis/index.go:32-62 | indexes each walked file until the first failure and marks the index finished |
| AnalysisIndex.Index.IndexFile | internal/code/analysis/index.go:64-85 | appends the declarations of the root's children, with no parent |
| AnalysisIndex.Index.IndexChildren | internal/code/analysis/index.go:97-110 | appends the declarations of every child in order |
| AnalysisIndex.Index.IndexChild | internal/code/analysis/index.go:67-80 | dispatches on the node kind and skips everything else |
| AnalysisIndex.Index.IndexModule | internal/code/analysis/index.go:87-113 | appends the nested declarations, then the module |
| AnalysisIndex.Index.IndexClass | internal/code/analysis/index.go:115-148 | appends the nested declarations, then the class |
| AnalysisIndex.Index.IndexMethod | internal/code/analysis/index.go:150-169 | appends exactly one method and nothing else |
| AnalysisIndex.Index.LookupConstant | internal/code/analysis/index.go:171-189 | nothing and not found before indexing; afterwards found, with the matching classes then modules |
| AnalysisIndex.Index.LookupIdentifier | internal/code/analysis/index.go:191-204 | nothing and not found before indexing; afterwards found, with the methods of that name |
| Nesting.Reversed | handlers/helper.go:18 | element i of the result is element n-1-i of the input |
| Nesting.Candidates | handlers/helper.go:19-23 | one candidate per name |
| Nesting.FindNesting | handlers/helper.go:10-24 | the candidates of the reversed names of the module and class ancestors strictly above the node |
| Nesting.ScopeNamesCount | handlers/helper.go:12-17 | one name per module or class ancestor |
| Nesting.ScopeNamesMembers | handlers/helper.go:13-15 | a name is collected exactly when some module or class ancestor's first child is it |
| Nesting.JoinSnoc | handlers/helper.go:20-22 | joining one more name appends the separator and the name |
| Nesting.CandidatesShape | handlers/helper.go:19-23 | empty exactly for no names; the first candidate is the full path and the last the outermost name |
| Nesting.CandidateStep | handlers/helper.go:20-22 | each candidate is the next one extended by one more name |
| Nesting.FindNestingExample | handlers/helper.go:10-24 | `Bar` in `Foo` gives `Foo::Bar`, then `Foo` |
| Codebase.TypesDistinct | code/index/codebase.go:5-71 | ModuleDecl, ClassDecl and MethodDecl report tags 0, 1 and 2, pairwise distinct |
| Prism.Body | code/navigate/navigate.go:9-12 | a definition's body is present exactly when the node has one |
| CodeIndex.Locate | code/index/index.go:93-114 | fails exactly when the offset is negative or at least the length, and a location names the path |
| CodeIndex.LineOfCounts | code/index/index.go:98-113 | the line is the number of newlines before the offset |
| CodeIndex.ColumnOfCounts | code/index/index.go:99-108 | the column counts the bytes after the last newline before the offset, or the offset itself without one |
| CodeIndex.LocationFromOffset | code/index/index.go:93-114 | the counting loop computes the location the reference definition gives |
| CodeIndex.EndOfFileRejected | code/index/index.go:93-96 | an offset equal to the file length is an error |
| CodeIndex.PathFilterExamples | code/index/index.go:36-41 | hidden and dependency directories are skipped and only `.rb` files indexed |
| CodeIndex.ExtendsTrans | code/index/index.go:62-91 | extension of registries composes |
| CodeIndex.IndexListExtends | code/index/index.go:66-90 | indexing a list of nodes only appends |
| CodeIndex.BodyExtends | code/index/index.go:132-153 | indexing a body only appends |
| CodeIndex.DispatchExtends | code/index/index.go:66-90 | indexing any node only appends |
| CodeIndex.PreOrder | code/index/index.go:116-154 | a module or class is appended before its body, with its name and keyword-to-end range |
| CodeIndex.FirstErrorStops | code/index/index.go:62-91 | after the first error the remaining siblings are not indexed |
| CodeIndex.MethodOnePointRange | code/index/index.go:156-177 | a method without an end keyword gets exactly one entry with a one-point range |
| CodeIndex.ConstantRangesMembers | code/index/index.go:183-196 | a range is returned exactly when a module or class of that name has it |
| CodeIndex.ConstantRangesEmpty | code/index/index.go:183-196 | the result is empty exactly when no module or class has the name |
| CodeIndex.IdentifierRangesMembers | code/index/index.go:203-208 | a range is returned exactly when a method of that name has it; empty exactly when none does |
| CodeIndex.Filter | code/index/index.go:211-219 | keeps the matching elements in order |
| CodeIndex.Mapp | code/index/index.go:221-227 | applies the function elementwise in order |
| CodeIndex.Index.New | code/index/index.go:23-27 | an empty, unfinished index over the root |
| CodeIndex.Index.Start | code/index/index.go:29-60 | indexes each file in turn; a failure is fatal, and only a complete walk marks the index finished |
| CodeIndex.Index.IndexProgram | code/index/index.go:62-91 | nothing for a missing node, else its children |
| CodeIndex.Index.IndexNodes | code/index/index.go:66-90 | indexes the children in order and stops at the first error |
| CodeIndex.Index.IndexChild | code/index/index.go:70-88 | descends through statements and dispatches modules, classes and methods; other kinds are ignored |
| CodeIndex.Index.IndexBody | code/index/index.go:132-153 | indexes a present body |
| CodeIndex.Index.IndexModule | code/index/index.go:116-134 | appends the module, then indexes its body |
| CodeIndex.Index.IndexClass | code/index/index.go:136-154 | appends the class, then indexes its body |
| CodeIndex.Index.IndexMethod | code/index/index.go:156-177 | appends one method and never looks into its body |
| CodeIndex.Index.LookupConstant | code/index/index.go:179-197 | nothing before indexing; afterwards the matching modules' then classes' ranges, found exactly when non-empty |
| CodeIndex.Index.LookupIdentifier | code/index/index.go:199-209 | nothing before indexing; afterwards the matching methods' ranges, found exactly when non-empty |
| Navigate.SubClasses | code/navigate/navigate.go:7-33 | panics exactly when a module, class or singleton-class node has no body; otherwise the direct body children that are classes or singleton classes, in order |
| Navigate.Methods | code/navigate/navigate.go:35-61 | panics exactly when a module, class or singleton-class node has no body; otherwise the direct body children that are defs or aliases, in order |
| Navigate.SubModules | code/navigate/navigate.go:63-89 | panics exactly when a module, class or singleton-class node has no body; otherwise the direct body children that are modules, in order |
| Navigate.FilterMembers | code/navigate/navigate.go:9-88 | only direct body children are returned, and nothing for a node that is not a module or class |
| Navigate.ResultsDisjoint | code/navigate/navigate.go:91-113 | the three results of one node are pairwise disjoint |
| Completion.Map | handlers/completion.go:85-94 | the function applied elementwise in order |
| Completion.ToSet | handlers/completion.go:134-140 | exactly the input's elements |
| Completion.Join | handlers/completion.go:142-147 | the first slice then each of the rest in order |
| Completion.ToSlice | handlers/completion.go:149-155 | each key exactly once |
| Completion.Bucket | handlers/completion.go:110-123 | one item per capture in order, and those names removed from the pending set |
| Completion.AllIdentifiers | handlers/completion.go:96-132 | any query error is returned alone; otherwise class items, then method items, then the distinct remaining identifiers as variables |
| Completion.VariablesOfSlice | handlers/completion.go:124-130 | the variable items are the distinct identifiers that are not class or method names |
| Completion.JoinedParts | handlers/completion.go:131 | the joined result splits back into its three parts |
| Completion.VariableCount | handlers/completion.go:109-124 | the number of variables is the size of the identifier set minus the class and method names |
| Completion.DistinctLabels | handlers/completion.go:124-130 | distinct labels count once each |
| DidOpen.TextDocument.constructor | handlers/did_open.go:20-23 | a document holds the opened text and its tree |
| DidOpen.Handler.constructor | handlers/handler.go:9-13 | a handler starts with no open documents |
| DidOpen.Handler.DidOpenHandler | handlers/did_open.go:11-25 | bad params or a parse failure return the error with the table unchanged; otherwise a fresh document is stored under the URI and other entries stay |
| DidOpen.Handler.DidChangeHandler | handlers/did_open.go:27-44 | an unknown URI gives "file never opened"; otherwise the content becomes the first change, and the tree the reparse or nothing on error |
| RpcErrors.Bands | rpc/errors.go:6-22 | the two reserved bands, their members and bounds; they do not overlap and hold no predefined code |
| RpcErrors.CodesDistinct | rpc/errors.go:6-22 | the named codes are pairwise distinct |
| RpcTypes.ErrorString | rpc/types.go:59-61 | the error's text is its message |
| RpcTypes.ResponseKeys | rpc/types.go:32-37 | id, result and error are encoded exactly when present; jsonrpc always |
| RpcTypes.SentinelsDistinct | rpc/types.go:27-30 | the two sentinel errors differ |
| RpcTypes.VersionClassifies | rpc/types.go:19-51 | each message is JSON-RPC exactly when its version is "2.0" |
| Rpc.HeaderText | rpc/rpc.go:70-72 | the header is ASCII |
| Rpc.Frame | rpc/rpc.go:65-78 | the frame ends with the body |
| Rpc.AfterWrite | rpc/rpc.go:65-78 | a marshal error leaves the stream; otherwise the frame is flushed |
| Rpc.Writer.constructor | rpc/rpc.go:44-55 | an empty writer |
| Rpc.Writer.WriteBytes | rpc/rpc.go:70-74 | buffers the bytes |
| Rpc.Writer.Flush | rpc/rpc.go:75-77 | moves the buffer to the output |
| Rpc.Write | rpc/rpc.go:65-78 | fails exactly on a marshal error; otherwise header and body are flushed |
| Rpc.HeaderOf18 | rpc/rpc_test.go:22 | the header for 18 bytes |
| Rpc.FrameExample | rpc/rpc_test.go:22 | the 18-byte example body's frame |
| Rpc.IndexOf | rpc/rpc.go:16-19 | the first occurrence of a byte |
| Rpc.FirstIndex | rpc/rpc.go:16-19 | the first occurrence is unique |
| Rpc.NextLine | rpc/rpc.go:16-19 | a line exists exactly when there is a line feed, and it holds none |
| Rpc.TrimLeft | rpc/rpc.go:16-19 | drops exactly the leading blanks |
| Rpc.TrimRight | rpc/rpc.go:16-19 | drops exactly the trailing blanks |
| Rpc.SplitField | rpc/rpc.go:16-19 | a field exactly when there is a colon, split at the first |
| Rpc.ReadHeader | rpc/rpc.go:16-19 | a header block leaves less input than it read |
| Rpc.HeaderGet | rpc/rpc.go:20 | the first field of the name, or empty |
| Rpc.ReadFrame | rpc/rpc.go:15-33 | no error means a 2.0 request; a request with an error is a non-2.0 one with ErrInvalidMsg; a header error is returned alone |
| Rpc.MissingLengthFails | rpc/rpc.go:20-23 | without Content-Length reading fails with a syntax error |
| Rpc.LengthRejected | rpc/rpc.go:20-23 | a Content-Length that is not a 64-bit decimal fails with the syntax error and no request |
| Rpc.ReadHeaderOfFrame | rpc/rpc.go:70-72 | the header Write produces reads back as one Content-Length field |
| Rpc.ReadFrameRoundTrip | rpc/rpc.go:15-33 | reading a written frame gives its request and leaves what follows |
| Rpc.Reader.constructor | rpc/rpc.go:44-55 | a reader over the input |
| Rpc.Read | rpc/rpc.go:15-33 | the request and error of the reference reading, consuming the frame |
| Rpc.NewResponse | rpc/rpc.go:142-148 | a 2.0 response with the ID and result and no error |
| Rpc.NewResponseError | rpc/rpc.go:150-158 | a 2.0 response with no ID, no result and the error's code and message |
| Rpc.Invoked | rpc/rpc.go:105-132 | at most one handler runs, the one of the request's method |
| Rpc.DispatchAnswers | rpc/rpc.go:96-140 | notifications get no answer; unknown methods -32601; failing handlers -32603 with the message; success the ID and result |
| Rpc.ErrorResponseKeys | rpc/rpc.go:150-158 | an error response encodes only jsonrpc and error |
| Rpc.Mux.NewMux | rpc/rpc.go:44-55 | a mux with no handlers over fresh streams |
| Rpc.Mux.HandleMethod | rpc/rpc.go:57-59 | sets one request handler, latest wins |
| Rpc.Mux.HandleNotification | rpc/rpc.go:61-63 | sets one notification handler, latest wins |
| Rpc.Mux.Send | rpc/rpc.go:80-85 | writes one framed message |
| Rpc.Mux.Notify | rpc/rpc.go:87-94 | writes one 2.0 notification |
| Rpc.Mux.Process | rpc/rpc.go:96-140 | fails only when reading fails; otherwise runs the handler and writes the dispatch answer |
| Rpc.Mux.Reply | rpc/rpc.go:114-139 | answers a request with the dispatch response |
| Text.ParseInt64 | rpc/rpc.go:20 | accepts exactly an optional sign followed by decimal digits whose value is within 64 bits, and returns that value |
| Text.IntStringRoundTrip | rpc/rpc.go:20 | every 64-bit value printed in decimal parses back to itself |
| Text.NatStringRoundTrip | rpc/rpc.go:70 | a printed length parses back to itself |

## Left out

- Characters are single runes of width 1. UTF-8 widths are not modelled, and `unicode.IsLetter`
  and `IsDigit` are restricted to ASCII.
- Go's nil and empty slices are both the empty sequence.
- JSON encoding and decoding, and the tree-sitter and prism parsers, are parameters or abstract
  trees. Query execution (`executeQuery`) is replaced by its three result lists.
- The directory walks, file reading and logging are left out. Both `Start` methods take the walk's
  results as a sequence.
- The `writeLock` mutex, the lexer's goroutine and its channel are not modelled. Execution is
  sequential.
- CodeIndex.Index.Start: `logger.Fatal` exits the process, which is modelled as a returned flag.
  The parser-creation error is not modelled.
- AnalysisIndex.Index.Start: the walk callback refers to `ignoredDirectories`, which is not
  declared in the source. The model stops at the first failed file, as returning the callback's
  error does.
- Rpc.Write: the buffered writer never fails and never flushes on its own. Write errors are not
  modelled.
- Rpc.ReadFrame: header parsing is a simplified `textproto`. There are no continuation lines, and
  key canonicalisation is not modelled: the field name must be exactly `Content-Length`.
- Rpc.ReadFrame: the JSON decoder is assumed to consume the whole limited body. What a failed read
  leaves unread is not stated.
- Rpc.Read: the remaining input is stated only when a request was read.
- Rpc.Mux.Process: handlers are pure functions. A notification's side effects are recorded in the
  `invoked` trace, and its error is only logged.
- Lexer.Lexer.Run: the token stream is stated up to type, literal and position. Line and column
  are stated per token by `Emit`, not by the reference stream. A panic is reported as a flag. The
  panic condition is stated for a fresh lexer, whose column and column stack are empty.
- Rpc.ReadFrame: every failure to parse Content-Length is reported as one error,
  `ErrLengthSyntax`. The source passes on strconv's own message, which quotes the text and tells
  "invalid syntax" apart from "value out of range".
- The indexer's loops skip a child that is the node itself (`node == n`). A tree node is never its
  own child, so the model has no such check.
- The Docs, Children, SuperClass and Args fields of the declaration types are not modelled.
- Prism.Body: a definition node's children hold only its body.
- DidOpen.Handler.DidChangeHandler: requires at least one content change. The source would panic
  on an empty list.
- `handlers/handler.go` declares no `files` table or parser. The model gives the handler the table
  that `handlers/did_open.go` uses.
- The `Range` and `Type` getters of `code/index/codebase.go` are kept as plain functions.
  `Codebase.TypesDistinct` states their tags.
- Rpc.NewResponseError: error responses carry no ID. This is as in the source, which is contrary to
  section 5 of JSON-RPC 2.0.
