/**
 * Token types of the toy language and their classification: the iota-numbered constants, the
 * spelling table, the keyword map that init() builds from it, and the predicates over both.
 */
module Token {
  import opened Text

  /** Go's `type TokenType int`: any int, most of them not one of the named constants. */
  type TokenType = int

  const Illegal: TokenType := 0
  const EOF: TokenType := 1
  const LiteralBeginning: TokenType := 2
  const Ident: TokenType := 3
  const Int: TokenType := 4
  const LiteralEnd: TokenType := 5
  const OperatorBeginning: TokenType := 6
  const Assign: TokenType := 7
  const Plus: TokenType := 8
  const Minus: TokenType := 9
  const Bang: TokenType := 10
  const Asterisk: TokenType := 11
  const Slash: TokenType := 12
  const LessThan: TokenType := 13
  const GreaterThan: TokenType := 14
  const Comma: TokenType := 15
  const SemiColon: TokenType := 16
  const LeftParen: TokenType := 17
  const RightParen: TokenType := 18
  const LeftBrace: TokenType := 19
  const RightBrace: TokenType := 20
  const And: TokenType := 21
  const Or: TokenType := 22
  const Eq: TokenType := 23
  const NotEq: TokenType := 24
  const LessThanEq: TokenType := 25
  const GreaterThanEq: TokenType := 26
  const OperatorEnd: TokenType := 27
  const KeywordBeginning: TokenType := 28
  const Class: TokenType := 29
  const Module: TokenType := 30
  const Def: TokenType := 31
  const Do: TokenType := 32
  const True: TokenType := 33
  const False: TokenType := 34
  const If: TokenType := 35
  const Else: TokenType := 36
  const End: TokenType := 37
  const Return: TokenType := 38
  const KeywordEnd: TokenType := 39

  /** A lexed token: its type, its text, and where it was found. */
  datatype Token = Token(tokenType: TokenType, literal: string, line: int, pos: int, col: int)

  predicate IsMarker(t: TokenType) {
    t == LiteralBeginning || t == LiteralEnd || t == OperatorBeginning ||
    t == OperatorEnd || t == KeywordBeginning || t == KeywordEnd
  }

  /** The `tokens` spelling table; the marker slots hold the empty string. */
  function Spelling(t: TokenType): string
    requires 0 <= t < KeywordEnd
  {
    match t
    case 0 => "Illegal" case 1 => "EOF" case 3 => "Ident" case 4 => "int"
    case 7 => "=" case 8 => "+" case 9 => "-" case 10 => "!" case 11 => "*" case 12 => "/"
    case 13 => "<" case 14 => ">" case 15 => "," case 16 => ";"
    case 17 => "(" case 18 => ")" case 19 => "{" case 20 => "}"
    case 21 => "&&" case 22 => "||" case 23 => "==" case 24 => "!=" case 25 => "<=" case 26 => ">="
    case 29 => "class" case 30 => "module" case 31 => "def" case 32 => "do" case 33 => "true"
    case 34 => "false" case 35 => "if" case 36 => "else" case 37 => "end" case 38 => "return"
    case _ => ""
  }

  /**
   * TokenType.String: `token(n)` for the markers and anything outside (0, keywordEnd),
   * the table's spelling otherwise.
   */
  function String(t: TokenType): (s: string)
    ensures IsMarker(t) || t <= Illegal || t >= KeywordEnd ==> s == "token(" + IntString(t) + ")"
    ensures !IsMarker(t) && Illegal < t < KeywordEnd ==> s == Spelling(t) && s != ""
  {
    if IsMarker(t) then "token(" + IntString(t) + ")"
    else if 0 < t < KeywordEnd then Spelling(t)
    else "token(" + IntString(t) + ")"
  }

  predicate IsLiteral(t: TokenType)
    ensures IsLiteral(t) <==> t == Ident || t == Int
  {
    LiteralBeginning < t < LiteralEnd
  }

  predicate IsOperator(t: TokenType)
    ensures IsOperator(t) <==> Assign <= t <= GreaterThanEq
  {
    OperatorBeginning < t < OperatorEnd
  }

  /** TokenType.IsKeyword: exactly the ten keyword types. */
  predicate IsKeywordType(t: TokenType)
    ensures IsKeywordType(t) <==>
      t in {Class, Module, Def, Do, True, False, If, Else, End, Return}
  {
    KeywordBeginning < t < KeywordEnd
  }

  /** The three classes are pairwise disjoint, and none holds Illegal or EOF. */
  lemma ClassesDisjoint(t: TokenType)
    ensures !(IsLiteral(t) && IsOperator(t))
    ensures !(IsLiteral(t) && IsKeywordType(t))
    ensures !(IsOperator(t) && IsKeywordType(t))
    ensures t == Illegal || t == EOF ==> !IsLiteral(t) && !IsOperator(t) && !IsKeywordType(t)
  {
  }

  /** The keyword map init() builds, written out as a display. */
  function KeywordTable(): map<string, TokenType> {
    map["class" := Class, "module" := Module, "def" := Def, "do" := Do, "true" := True,
        "false" := False, "if" := If, "else" := Else, "end" := End, "return" := Return]
  }

  /** The map after init()'s loop has entered the keywords below `upTo`. */
  function TableUpTo(upTo: TokenType): map<string, TokenType>
    requires KeywordBeginning + 1 <= upTo <= KeywordEnd
    decreases upTo
  {
    if upTo == KeywordBeginning + 1 then map[]
    else TableUpTo(upTo - 1)[Spelling(upTo - 1) := upTo - 1]
  }

  lemma TableUpToComplete()
    ensures TableUpTo(KeywordEnd) == KeywordTable()
  {
    assert TableUpTo(Class + 1) == map["class" := Class];
    assert TableUpTo(Module + 1) == map["class" := Class, "module" := Module];
    assert TableUpTo(Def + 1) == map["class" := Class, "module" := Module, "def" := Def];
    assert TableUpTo(Do + 1) == TableUpTo(Def + 1)["do" := Do];
    assert TableUpTo(True + 1) == TableUpTo(Do + 1)["true" := True];
    assert TableUpTo(False + 1) == TableUpTo(True + 1)["false" := False];
    assert TableUpTo(If + 1) == TableUpTo(False + 1)["if" := If];
    assert TableUpTo(Else + 1) == TableUpTo(If + 1)["else" := Else];
    assert TableUpTo(End + 1) == TableUpTo(Else + 1)["end" := End];
  }

  /** init(): enter every keyword's spelling, mapped to its type. */
  method BuildKeywordTable() returns (m: map<string, TokenType>)
    ensures m == KeywordTable()
  {
    m := map[];
    var i := KeywordBeginning + 1;
    while i < KeywordEnd
      invariant KeywordBeginning + 1 <= i <= KeywordEnd
      invariant m == TableUpTo(i)
    {
      m := m[Spelling(i) := i];
      i := i + 1;
    }
    TableUpToComplete();
  }

  /** IsKeyword(ident): a lookup in the keyword map. */
  predicate IsKeyword(ident: string) {
    ident in KeywordTable()
  }

  /** The keywords are exactly the ten reserved spellings. */
  lemma KeywordSpellings(ident: string)
    ensures IsKeyword(ident) <==>
      ident in {"class", "module", "def", "do", "true", "false", "if", "else", "end", "return"}
  {
  }

  /** The keyword's type for a keyword spelling, Ident for anything else. */
  function TokenForIdent(name: string): (t: TokenType)
    ensures t != Ident <==> IsKeyword(name)
    ensures IsKeyword(name) ==> IsKeywordType(t)
  {
    if name in KeywordTable() then KeywordTable()[name] else Ident
  }

  /** A keyword is looked up as the type whose spelling it is. */
  lemma KeywordSpelling(name: string)
    requires IsKeyword(name)
    ensures String(TokenForIdent(name)) == name
  {
  }

  /** Spelling a keyword type and looking the spelling up again gives the type back. */
  lemma KeywordRoundTrip(t: TokenType)
    requires IsKeywordType(t)
    ensures IsKeyword(String(t)) && TokenForIdent(String(t)) == t
  {
  }

  /** Whether character `c` may stand at a position of an identifier (`first` for position 0). */
  predicate IdentifierChar(c: char, first: bool) {
    IsLetter(c) || c == '_' || (!first && IsDigit(c))
  }

  /**
   * IsIdentifier scans the runes and stops at the first one that may not stand where it is;
   * the empty string and the keywords are never identifiers.
   */
  method IsIdentifier(name: string) returns (ok: bool)
    ensures ok <==> (name != "" && !IsKeyword(name) &&
                     forall i :: 0 <= i < |name| ==> IdentifierChar(name[i], i == 0))
  {
    var i := 0;
    while i < |name|
      invariant 0 <= i <= |name|
      invariant forall j :: 0 <= j < i ==> IdentifierChar(name[j], j == 0)
    {
      var c := name[i];
      if !IsLetter(c) && (i == 0 || !IsDigit(c)) && c != '_' {
        return false;
      }
      i := i + 1;
    }
    return name != "" && !IsKeyword(name);
  }
}
