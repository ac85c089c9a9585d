/**
 * The toy-language lexer: a cursor over the input (`start`, `pos`, `width`, `line`, `col`) with a
 * stack of earlier columns (`prevCol`), driven by two state functions. Tokens that the source sends
 * on a channel are appended to `tokens` here.
 *
 * `Scan` is a functional reference for what the lexer emits (type, literal and position of every
 * token); each state function is proved to perform one step of it.
 */
module Lexer {
  import opened Wrappers
  import opened Text
  import opened Token

  /** A rune read by `next`: a character, or the end of the input (Go's eof = -1). */
  datatype Rune = Eof | Ch(c: char)

  /** The state functions of the lexer; `Stop` is the nil state that ends `run`. */
  datatype State = LexTextState | LexIdentState | Stop

  /** What `Scan` says about one token: its type, its literal and the offset it starts at. */
  datatype Lexeme = Lexeme(tokenType: TokenType, literal: string, pos: int)

  /** isIdent: a rune that may stand in an identifier or a number. */
  predicate IsIdentRune(c: char) {
    c == '_' || IsDigit(c) || IsLetter(c)
  }

  /** The end of the run of identifier runes that starts at `p`. */
  function IdentEnd(input: string, p: nat): (e: nat)
    requires p <= |input|
    ensures p <= e <= |input|
    ensures forall k :: p <= k < e ==> IsIdentRune(input[k])
    ensures e == |input| || !IsIdentRune(input[e])
    decreases |input| - p
  {
    if p < |input| && IsIdentRune(input[p]) then IdentEnd(input, p + 1) else p
  }

  /** The arguments lexText passes to doubleCharOperator: the second character, the type for a
      lone first character, and the type when the second follows. */
  datatype DoubleChar = DoubleChar(second: char, fail: TokenType, pass: TokenType)

  /** The case of lexText's switch a character falls in (the EOF case aside). */
  datatype CharClass = Space | Double(d: DoubleChar) | Single(t: TokenType) | IdentStart | NoCase

  /** lexText's switch, case by case (the EOF case aside). */
  function Classify(c: char): CharClass {
    match c
    case '\n' | ' ' | '\t' | '\r' => Space
    case '=' => Double(DoubleChar('=', Assign, Eq))
    case '+' => Single(Plus)
    case '-' => Single(Minus)
    case '!' => Double(DoubleChar('=', Bang, NotEq))
    case '*' => Single(Asterisk)
    case '/' => Single(Slash)
    case '<' => Double(DoubleChar('=', LessThan, LessThanEq))
    case '>' => Double(DoubleChar('=', GreaterThan, GreaterThanEq))
    case ',' => Single(Comma)
    case ';' => Single(SemiColon)
    case '(' => Single(LeftParen)
    case ')' => Single(RightParen)
    case '{' => Single(LeftBrace)
    case '}' => Single(RightBrace)
    case '|' => Double(DoubleChar('|', Or, Illegal))
    case '&' => Double(DoubleChar('&', And, Illegal))
    case _ => if IsIdentRune(c) then IdentStart else NoCase
  }

  /** The end of a run is determined by its two properties: identifier runes up to it, none at it. */
  lemma {:induction false} IdentEndUnique(input: string, p: nat, e: nat)
    requires p <= e <= |input|
    requires forall k :: p <= k < e ==> IsIdentRune(input[k])
    requires e == |input| || !IsIdentRune(input[e])
    ensures IdentEnd(input, p) == e
    decreases e - p
  {
    if p < e {
      IdentEndUnique(input, p + 1, e);
    }
  }

  /** The tokens one step emits and the pending-text window it leaves. */
  datatype Progress = Progress(emitted: seq<Lexeme>, start: nat, pos: nat)

  /**
   * One step from a state where `input[start..pos]` has been read but not emitted and `pos` is
   * before the end. Whitespace is dropped; a character that starts no token is neither emitted
   * nor dropped, so it becomes part of the next token's literal.
   */
  function Step(input: string, start: nat, pos: nat): (p: Progress)
    requires start <= pos < |input|
    ensures p.start <= p.pos <= |input| && p.pos > pos
  {
    match Classify(input[pos])
    case Space => Progress([], pos + 1, pos + 1)
    case Double(d) =>
      var n := if pos + 1 < |input| && input[pos + 1] == d.second then 2 else 1;
      Progress([Lexeme(if n == 2 then d.pass else d.fail, input[start..pos + n], start)], pos + n, pos + n)
    case Single(t) => Progress([Lexeme(t, input[start..pos + 1], start)], pos + 1, pos + 1)
    case IdentStart =>
      var e := IdentEnd(input, pos);
      Progress([Lexeme(TokenForIdent(input[start..e]), input[start..e], start)], e, e)
    case NoCase => Progress([], start, pos + 1)
  }

  /**
   * The switch sends exactly the identifier runes to lexIdent, and every type it emits directly is
   * an operator or Illegal (never EOF).
   */
  lemma ClassifyCases(c: char)
    ensures Classify(c) == IdentStart <==> IsIdentRune(c)
    ensures Classify(c).Single? ==> IsOperator(Classify(c).t)
    ensures Classify(c).Double? ==>
      IsOperator(Classify(c).d.fail) && (IsOperator(Classify(c).d.pass) || Classify(c).d.pass == Illegal)
  {
  }

  lemma StepSpace(input: string, start: nat, pos: nat)
    requires start <= pos < |input| && Classify(input[pos]) == Space
    ensures Step(input, start, pos) == Progress([], pos + 1, pos + 1)
  {
  }

  lemma StepDouble(input: string, start: nat, pos: nat, d: DoubleChar)
    requires start <= pos < |input| && Classify(input[pos]) == Double(d)
    ensures var n := if pos + 1 < |input| && input[pos + 1] == d.second then 2 else 1;
      Step(input, start, pos) ==
      Progress([Lexeme(if n == 2 then d.pass else d.fail, input[start..pos + n], start)], pos + n, pos + n)
  {
  }

  lemma StepSingle(input: string, start: nat, pos: nat, t: TokenType)
    requires start <= pos < |input| && Classify(input[pos]) == Single(t)
    ensures Step(input, start, pos) == Progress([Lexeme(t, input[start..pos + 1], start)], pos + 1, pos + 1)
  {
  }

  lemma StepNoCase(input: string, start: nat, pos: nat)
    requires start <= pos < |input| && Classify(input[pos]) == NoCase
    ensures Step(input, start, pos) == Progress([], start, pos + 1)
  {
  }

  /** The identifier case of `Step`: the run of identifier runes, typed by TokenForIdent. */
  lemma StepIdent(input: string, start: nat, pos: nat)
    requires start <= pos < |input| && IsIdentRune(input[pos])
    ensures var e := IdentEnd(input, pos);
      Step(input, start, pos) == Progress([Lexeme(TokenForIdent(input[start..e]), input[start..e], start)], e, e)
  {
    assert Classify(input[pos]) == IdentStart;
  }

  /** Every token the lexer emits from a state, ending with the EOF token. */
  function Scan(input: string, start: nat, pos: nat): seq<Lexeme>
    requires start <= pos <= |input|
    decreases |input| - pos
  {
    if pos == |input| then [Lexeme(EOF, "", pos + 1)]
    else
      var p := Step(input, start, pos);
      p.emitted + Scan(input, p.start, p.pos)
  }

  /** A state before the end of the input scans as one step followed by the rest. */
  lemma ScanStep(input: string, start: nat, pos: nat, ts: seq<Lexeme>, ts': seq<Lexeme>)
    requires start <= pos < |input|
    requires ts' == ts + Step(input, start, pos).emitted
    ensures ts' + Scan(input, Step(input, start, pos).start, Step(input, start, pos).pos) ==
            ts + Scan(input, start, pos)
  {
    var p := Step(input, start, pos);
    var rest := Scan(input, p.start, p.pos);
    assert Scan(input, start, pos) == p.emitted + rest;
    assert (ts + p.emitted) + rest == ts + (p.emitted + rest);
  }

  /**
   * A token read from the input: not EOF, a non-empty literal that is the slice of the input
   * starting at the token's position, and a position at or after `lo`.
   */
  predicate SliceOf(input: string, l: Lexeme, lo: nat) {
    l.tokenType != EOF && lo <= l.pos && l.literal != [] &&
    l.pos + |l.literal| <= |input| && l.literal == input[l.pos..l.pos + |l.literal|]
  }

  /**
   * One step emits at most one token; it is the pending text up to the new start, placed where
   * the pending text began.
   */
  lemma StepEmits(input: string, start: nat, pos: nat)
    requires start <= pos < |input|
    ensures var p := Step(input, start, pos);
      |p.emitted| <= 1 &&
      (p.emitted != [] ==> p.start == p.pos && SliceOf(input, p.emitted[0], start) &&
                           p.emitted[0].pos == start && p.emitted[0].pos + |p.emitted[0].literal| == p.start)
  {
    var c := input[pos];
    ClassifyCases(c);
    match Classify(c)
    case Space =>
    case Double(d) =>
    case Single(t) =>
    case IdentStart =>
      var e := IdentEnd(input, pos);
    case NoCase =>
  }

  /**
   * The shape of a token stream: it ends with exactly one EOF token, with an empty literal, one
   * past the end of the input; every other token is a slice of the input at or after `lo`, and
   * the slices appear in order without overlapping.
   */
  predicate Shape(input: string, ls: seq<Lexeme>, lo: nat) {
    |ls| >= 1 && ls[|ls| - 1] == Lexeme(EOF, "", |input| + 1) &&
    (forall i :: 0 <= i < |ls| - 1 ==> SliceOf(input, ls[i], lo)) &&
    (forall i :: 0 <= i < |ls| - 1 ==> ls[i].pos + |ls[i].literal| <= ls[i + 1].pos)
  }

  /** Putting at most one token that ends before `mid` in front of a stream from `mid` keeps the shape. */
  lemma ShapeCons(input: string, e: seq<Lexeme>, rest: seq<Lexeme>, lo: nat, mid: nat)
    requires lo <= mid <= |input| && Shape(input, rest, mid)
    requires |e| <= 1 && (e != [] ==> SliceOf(input, e[0], lo) && e[0].pos + |e[0].literal| <= mid)
    ensures Shape(input, e + rest, lo)
  {
    var ls := e + rest;
    forall i | 0 <= i < |rest| - 1
      ensures SliceOf(input, rest[i], lo) && rest[i].pos >= mid
    {
      assert SliceOf(input, rest[i], mid);
    }
    assert rest[0].pos >= mid;
    if e != [] {
      forall i | 0 <= i < |ls| - 1
        ensures SliceOf(input, ls[i], lo) && ls[i].pos + |ls[i].literal| <= ls[i + 1].pos
      {
        if i > 0 {
          assert ls[i] == rest[i - 1] && ls[i + 1] == rest[i];
        }
      }
    }
  }

  /** The token stream from any state has the shape of a lexer's output. */
  lemma {:induction false} ScanShape(input: string, start: nat, pos: nat)
    requires start <= pos <= |input|
    ensures Shape(input, Scan(input, start, pos), start)
    decreases |input| - pos
  {
    if pos < |input| {
      var p := Step(input, start, pos);
      StepEmits(input, start, pos);
      ScanShape(input, p.start, p.pos);
      ShapeCons(input, p.emitted, Scan(input, p.start, p.pos), start, p.start);
    }
  }

  /** A lone `|` is Or. */
  lemma ScanLoneBar()
    ensures Scan("|", 0, 0) == [Lexeme(Or, "|", 0), Lexeme(EOF, "", 2)]
  {
    var input := "|";
    assert Classify(input[0]) == Double(DoubleChar('|', Or, Illegal));
    assert input[0..1] == "|";
    assert Step(input, 0, 0) == Progress([Lexeme(Or, "|", 0)], 1, 1);
  }

  /** A doubled `|` is Illegal. */
  lemma ScanDoubleBar()
    ensures Scan("||", 0, 0) == [Lexeme(Illegal, "||", 0), Lexeme(EOF, "", 3)]
  {
    var input := "||";
    assert Classify(input[0]) == Double(DoubleChar('|', Or, Illegal));
    assert input[0..2] == "||";
    assert Step(input, 0, 0) == Progress([Lexeme(Illegal, "||", 0)], 2, 2);
  }

  /** A character that starts no token leaks into the next token's literal. */
  lemma ScanLeak()
    ensures Scan(".+", 0, 0) == [Lexeme(Plus, ".+", 0), Lexeme(EOF, "", 3)]
  {
    var input := ".+";
    assert Classify(input[0]) == NoCase;
    assert Step(input, 0, 0) == Progress([], 0, 1);
    assert Classify(input[1]) == Single(Plus);
    assert input[0..2] == ".+";
    assert Step(input, 0, 1) == Progress([Lexeme(Plus, ".+", 0)], 2, 2);
  }

  /** `<=` is one token between two identifiers. */
  lemma ScanLessEq()
    ensures Scan("a<=b", 0, 0) ==
      [Lexeme(Ident, "a", 0), Lexeme(LessThanEq, "<=", 1), Lexeme(Ident, "b", 3), Lexeme(EOF, "", 5)]
  {
    var input := "a<=b";
    assert IdentEnd(input, 0) == 1 && input[0..1] == "a" && !IsKeyword("a");
    assert Classify(input[0]) == IdentStart;
    assert Step(input, 0, 0) == Progress([Lexeme(Ident, "a", 0)], 1, 1);
    assert Classify(input[1]) == Double(DoubleChar('=', LessThan, LessThanEq));
    assert input[1..3] == "<=";
    assert Step(input, 1, 1) == Progress([Lexeme(LessThanEq, "<=", 1)], 3, 3);
    assert IdentEnd(input, 3) == 4 && input[3..4] == "b" && !IsKeyword("b");
    assert Classify(input[3]) == IdentStart;
    assert Step(input, 3, 3) == Progress([Lexeme(Ident, "b", 3)], 4, 4);
  }

  /** What `Scan` describes of a token. */
  function Describe(t: Token): Lexeme {
    Lexeme(t.tokenType, t.literal, t.pos)
  }

  function Project(ts: seq<Token>): seq<Lexeme> {
    if ts == [] then [] else Project(ts[..|ts| - 1]) + [Describe(ts[|ts| - 1])]
  }

  lemma ProjectAppend(ts: seq<Token>, t: Token)
    ensures Project(ts + [t]) == Project(ts) + [Describe(t)]
  {
    assert (ts + [t])[..|ts|] == ts;
  }

  /** The column of offset `i` for a lexer that starts at column 0: the runes since the last
      newline before it. */
  function ColumnAt(s: string, i: nat): nat
    requires i <= |s|
  {
    if i == 0 then 0 else if s[i - 1] == '\n' then 0 else ColumnAt(s, i - 1) + 1
  }

  /** The column stack after reading the first `n` runes: the column before each of them. */
  function ColumnsUpTo(s: string, n: nat): (cs: seq<int>)
    requires n <= |s|
    ensures |cs| == n
  {
    if n == 0 then [] else ColumnsUpTo(s, n - 1) + [ColumnAt(s, n - 1)]
  }

  /**
   * The inputs on which run panics: the empty input, and a single rune that is read again by a
   * backup over the end of the input (an identifier rune, or the first character of a
   * two-character operator). The backup pops the only pushed column, and the final read of the
   * end of the input then finds column 0 and an empty column stack.
   */
  predicate Panics(input: string) {
    input == [] || (|input| == 1 && (IsIdentRune(input[0]) || Classify(input[0]).Double?))
  }

  class Lexer {
    var start: int
    var pos: int
    var width: int
    var line: int
    var col: int
    const input: string
    /** The tokens sent so far, in order. */
    var tokens: seq<Token>
    var prevCol: seq<int>
    /** Whether the token stream has been closed. */
    var closed: bool

    /** Lex: a lexer at the start of `input`, on line 1 (the goroutine is `Run`). */
    constructor Lex(input: string)
      ensures this.input == input
      ensures start == 0 && pos == 0 && width == 0 && col == 0 && line == 1
      ensures tokens == [] && prevCol == [] && !closed
    {
      this.input := input;
      start, pos, width, col, line := 0, 0, 0, 0, 1;
      tokens, prevCol, closed := [], [], false;
    }

    /** The reading position lies inside the input, after the start of the pending text. */
    ghost predicate InBounds()
      reads this
    {
      0 <= start <= pos <= |input|
    }

    /** The column state of a fresh lexer that has read `pos` runes. */
    ghost predicate Synced()
      reads this`pos, this`prevCol, this`col
    {
      0 <= pos <= |input| && prevCol == ColumnsUpTo(input, pos) && col == ColumnAt(input, pos)
    }

    /** The column state after a backup over the end of the input, which pops a column that the
        read of the end never pushed. */
    ghost predicate Drained()
      reads this`pos, this`prevCol, this`col
    {
      0 < pos == |input| && prevCol == ColumnsUpTo(input, pos - 1) && col == ColumnAt(input, pos - 1)
    }

    /**
     * emit: send a token. EOF carries an empty literal and leaves `start` alone; any other type
     * carries the pending text `input[start..pos]`, is placed at `start`, and clears the pending text.
     */
    method Emit(t: TokenType)
      requires t != EOF ==> InBounds()
      modifies this`tokens, this`start
      ensures t == EOF ==> (start == old(start) &&
                            tokens == old(tokens) + [Token(EOF, "", line, pos, col + (pos - start))])
      ensures t != EOF ==> (start == pos &&
                            tokens == old(tokens) +
                                      [Token(t, input[old(start)..pos], line, old(start), col - (pos - old(start)))])
    {
      if t == EOF {
        tokens := tokens + [Token(t, "", line, pos, col + (pos - start))];
        return;
      }
      tokens := tokens + [Token(t, input[start..pos], line, start, col - (pos - start))];
      start := pos;
    }

    /**
     * next: read one rune and push the old column. At the end of the input nothing is pushed, and
     * a column of 0 is replaced by the last pushed column, which must exist.
     */
    method Next() returns (r: Rune)
      requires 0 <= pos
      requires pos >= |input| && col == 0 ==> |prevCol| > 0
      modifies this`width, this`col, this`line, this`pos, this`prevCol
      ensures old(pos) >= |input| ==>
        r == Eof && width == 0 && pos == old(pos) && prevCol == old(prevCol) &&
        (old(col) == 0 ==> col == old(prevCol)[|old(prevCol)| - 1] && line == old(line) - 1) &&
        (old(col) != 0 ==> col == old(col) && line == old(line))
      ensures old(pos) < |input| ==>
        r == Ch(input[old(pos)]) && width == 1 && pos == old(pos) + 1 &&
        prevCol == old(prevCol) + [old(col)] &&
        (input[old(pos)] == '\n' ==> line == old(line) + 1 && col == 0) &&
        (input[old(pos)] != '\n' ==> line == old(line) && col == old(col) + 1)
      ensures old(Synced()) ==> prevCol == ColumnsUpTo(input, pos)
      ensures old(Synced()) && old(pos) < |input| ==> Synced()
    {
      if pos >= |input| {
        width := 0;
        if col == 0 {
          col := prevCol[|prevCol| - 1];
          line := line - 1;
        }
        return Eof;
      }
      r := Ch(input[pos]);
      width := 1;
      prevCol := prevCol + [col];
      col := col + width;
      pos := pos + width;
      if r == Ch('\n') {
        line := line + 1;
        col := 0;
      }
    }

    /**
     * backup: step `pos` back by the last width and pop the column stack; stepping back over a
     * newline also steps back a line.
     */
    method Backup()
      requires |prevCol| > 0
      requires 0 <= width <= pos && (width == 1 ==> pos <= |input|)
      modifies this`pos, this`col, this`prevCol, this`line
      ensures pos == old(pos) - width
      ensures col == old(prevCol)[|old(prevCol)| - 1] && prevCol == old(prevCol)[..|old(prevCol)| - 1]
      ensures line == if width == 1 && input[pos] == '\n' then old(line) - 1 else old(line)
      ensures old(pos) <= |input| && old(prevCol) == ColumnsUpTo(input, old(pos)) ==>
        if width == 1 then Synced() else (width == 0 && old(pos) == |input| ==> Drained())
    {
      pos := pos - width;
      col := prevCol[|prevCol| - 1];
      prevCol := prevCol[..|prevCol| - 1];
      if width == 1 && input[pos] == '\n' {
        line := line - 1;
      }
    }

    /**
     * peek: next followed by backup. Before the end of the input the cursor is left as it was;
     * at the end, the backup still pops a column.
     */
    method Peek() returns (r: Rune)
      requires 0 <= pos
      requires |prevCol| > 0 || pos < |input|
      modifies this`width, this`col, this`line, this`pos, this`prevCol
      ensures old(pos) < |input| ==>
        r == Ch(input[old(pos)]) && width == 1 &&
        pos == old(pos) && col == old(col) && line == old(line) && prevCol == old(prevCol)
      ensures old(pos) >= |input| ==>
        r == Eof && width == 0 && pos == old(pos) &&
        col == old(prevCol)[|old(prevCol)| - 1] && prevCol == old(prevCol)[..|old(prevCol)| - 1] &&
        line == old(line) - (if old(col) == 0 then 1 else 0)
      ensures old(Synced()) ==> if old(pos) < |input| then Synced() else Drained()
    {
      r := Next();
      Backup();
      assert old(pos) < |input| ==> prevCol == old(prevCol);
    }

    /** ignore: drop the pending text. */
    method Ignore()
      modifies this`start
      ensures start == pos
    {
      start := pos;
    }

    /**
     * doubleCharOperator: after a first character, `pass` when `second` follows (and is consumed),
     * `fail` otherwise.
     */
    method DoubleCharOperator(second: char, fail: TokenType, pass: TokenType) returns (t: TokenType)
      requires 0 < pos <= |input| && |prevCol| > 0
      modifies this`width, this`col, this`line, this`pos, this`prevCol
      ensures pos < |input| ==> |prevCol| > 0
      ensures old(pos) < |input| && input[old(pos)] == second ==> t == pass && pos == old(pos) + 1
      ensures !(old(pos) < |input| && input[old(pos)] == second) ==> t == fail && pos == old(pos)
      ensures pos >= old(pos) > 0
      ensures old(Synced()) ==> if old(pos) == |input| then Drained() else Synced()
    {
      var ch := Peek();
      if ch == Ch(second) {
        ch := Next();
        return pass;
      }
      return fail;
    }

    /**
     * The double-character cases of lexText, after `next` has read the first character: the
     * second character is consumed when it follows, and the pending text is emitted.
     */
    method LexDouble(d: DoubleChar)
      requires 0 <= start < pos <= |input| && |prevCol| > 0 && d.fail != EOF && d.pass != EOF
      modifies this`width, this`col, this`line, this`pos, this`prevCol, this`tokens, this`start
      ensures var n := if old(pos) < |input| && input[old(pos)] == d.second then 1 else 0;
        start == pos == old(pos) + n &&
        Project(tokens) ==
        Project(old(tokens)) + [Lexeme(if n == 1 then d.pass else d.fail, input[old(start)..old(pos) + n], old(start))]
      ensures old(Synced()) ==> if old(pos) == |input| then Drained() else Synced()
    {
      var t := DoubleCharOperator(d.second, d.fail, d.pass);
      LexSingle(t);
    }

    /** Emit the pending text as `t`: the one-character cases of lexText after `next` has read the
        character, and the end of the double-character cases. */
    method LexSingle(t: TokenType)
      requires 0 <= start < pos <= |input| && t != EOF
      modifies this`tokens, this`start
      ensures start == pos && Project(tokens) == Project(old(tokens)) + [Lexeme(t, input[old(start)..pos], old(start))]
    {
      Emit(t);
      ProjectAppend(old(tokens), tokens[|tokens| - 1]);
    }

    /**
     * lexText's switch on a character `next` has just read (the EOF case aside). Each case
     * performs the step of `Scan` from the state before the read, except the identifier case,
     * which steps back and hands over to lexIdent.
     */
    method LexRune(c: char) returns (next: State)
      requires 0 <= start < pos <= |input| && input[pos - 1] == c && width == 1 && |prevCol| > 0
      modifies this
      ensures next != Stop
      ensures next == LexIdentState <==> IsIdentRune(c)
      ensures next == LexIdentState ==> start == old(start) && pos == old(pos) - 1 && tokens == old(tokens)
      ensures next == LexTextState ==>
        var p := Step(input, old(start), old(pos) - 1);
        start == p.start && pos == p.pos && Project(tokens) == Project(old(tokens)) + p.emitted
      ensures old(Synced()) && next == LexIdentState ==> Synced()
      ensures old(Synced()) && next == LexTextState ==>
        if Classify(c).Double? && old(pos) == |input| then Drained() else Synced()
    {
      next := LexTextState;
      ghost var (s0, p0) := (start, pos - 1);
      ClassifyCases(c);
      match Classify(c)
      case Space =>
        Ignore();
        StepSpace(input, s0, p0);
      case Double(d) =>
        StepDouble(input, s0, p0, d);
        LexDouble(d);
      case Single(t) =>
        StepSingle(input, s0, p0, t);
        LexSingle(t);
      case IdentStart =>
        Backup();
        next := LexIdentState;
      case NoCase =>
        StepNoCase(input, s0, p0);
    }

    /**
     * lexText: read one rune and act on it. Each call performs one step of `Scan`: what it emits
     * followed by what `Scan` still expects from the new state is what `Scan` expected before.
     */
    method LexText() returns (next: State)
      requires InBounds()
      requires pos >= |input| && col == 0 ==> |prevCol| > 0
      modifies this
      ensures next == Stop <==> old(pos) == |input|
      ensures next == Stop ==>
        pos == old(pos) + 1 && Project(tokens) == Project(old(tokens)) + [Lexeme(EOF, "", pos)]
      ensures next == LexIdentState <==> old(pos) < |input| && IsIdentRune(input[old(pos)])
      ensures next == LexIdentState ==> start == old(start) && pos == old(pos) && tokens == old(tokens)
      ensures next == LexTextState ==>
        var p := Step(input, old(start), old(pos));
        start == p.start && pos == p.pos && Project(tokens) == Project(old(tokens)) + p.emitted
      ensures old(Synced()) && next != Stop ==>
        if old(pos) < |input| && Classify(input[old(pos)]).Double? && old(pos) + 1 == |input|
        then Drained() else Synced()
    {
      ghost var synced := Synced();
      var r := Next();
      if r == Eof {
        pos := pos + 1;
        col := col + 1;
        Emit(EOF);
        ProjectAppend(old(tokens), tokens[|tokens| - 1]);
        return Stop;
      }
      assert synced ==> Synced();
      next := LexRune(r.c);
    }

    /**
     * The loop of lexIdent: absorb identifier runes, then step back over the first other rune
     * (or the end of the input), leaving `pos` at the end of the run.
     */
    method AbsorbIdent()
      requires 0 <= pos < |input| && IsIdentRune(input[pos])
      modifies this`width, this`col, this`line, this`pos, this`prevCol
      ensures pos == IdentEnd(input, old(pos))
      ensures old(Synced()) ==> if pos == |input| then Drained() else Synced()
    {
      ghost var p0 := pos;
      ghost var synced := Synced();
      var r := Next();
      while true
        invariant synced ==> Synced()
        invariant p0 < pos <= |input|
        invariant |prevCol| > 0
        invariant width == 1 && r.Ch? && r.c == input[pos - 1]
        invariant forall k :: p0 <= k < pos ==> IsIdentRune(input[k])
        decreases |input| - pos
      {
        r := Next();
        if !(r.Ch? && IsIdentRune(r.c)) {
          break;
        }
      }
      ghost var endPos := if r.Ch? then pos - 1 else pos;
      Backup();
      assert pos == endPos;
      IdentEndUnique(input, p0, pos);
    }

    /**
     * lexIdent: absorb the identifier runes and emit the pending text typed by TokenForIdent.
     * This is the identifier step of `Scan`.
     */
    method LexIdent() returns (next: State)
      requires InBounds() && pos < |input| && IsIdentRune(input[pos])
      modifies this
      ensures next == LexTextState
      ensures var p := Step(input, old(start), old(pos));
        start == p.start && pos == p.pos && Project(tokens) == Project(old(tokens)) + p.emitted
      ensures old(Synced()) ==> if pos == |input| then Drained() else Synced()
    {
      StepIdent(input, start, pos);
      AbsorbIdent();
      Emit(TokenForIdent(input[start..pos]));
      ProjectAppend(old(tokens), tokens[|tokens| - 1]);
      return LexTextState;
    }

    /**
     * One turn of run's loop, `state = state(l)`: what the state function emits followed by what
     * `Scan` expects from the new state is what `Scan` expected before, and the turn makes progress.
     */
    method Turn(state: State) returns (next: State)
      requires state != Stop && InBounds()
      requires state == LexTextState ==> (pos >= |input| && col == 0 ==> |prevCol| > 0)
      requires state == LexIdentState ==> pos < |input| && IsIdentRune(input[pos])
      modifies this
      ensures next != Stop ==>
        (InBounds() &&
         Project(tokens) + Scan(input, start, pos) == Project(old(tokens)) + Scan(input, old(start), old(pos)))
      ensures next == Stop ==>
        (pos == old(pos) + 1 && Project(tokens) == Project(old(tokens)) + Scan(input, old(start), old(pos)))
      ensures next == LexIdentState ==> pos < |input| && IsIdentRune(input[pos])
      ensures next != Stop ==> old(pos) < pos || (old(pos) == pos && state == LexTextState && next == LexIdentState)
      ensures next == Stop ==> state == LexTextState && old(pos) == |input|
      ensures state == LexTextState && next != Stop ==>
        old(pos) < |input| && (next == LexIdentState <==> IsIdentRune(input[old(pos)]))
      ensures old(Synced()) && next != Stop ==>
        if (state == LexTextState && old(pos) < |input| && Classify(input[old(pos)]).Double? && old(pos) + 1 == |input|) ||
           (state == LexIdentState && pos == |input|)
        then Drained() else Synced()
    {
      if state == LexTextState {
        next := LexText();
      } else {
        next := LexIdent();
      }
      if next == Stop {
        assert Scan(input, old(start), old(pos)) == [Lexeme(EOF, "", pos)];
      } else if old(pos) < pos {
        ScanStep(input, old(start), old(pos), Project(old(tokens)), Project(tokens));
      }
    }

    /**
     * run: step through the states until the nil state, then close the stream. The source
     * panics when lexText's `next` reaches the end of the input with column 0 and nothing on the
     * column stack; `panicked` reports that point, where the model stops.
     */
    method Run() returns (panicked: bool)
      requires start == 0 && pos == 0 && tokens == []
      modifies this
      ensures !panicked ==> closed && Project(tokens) == Scan(input, 0, 0)
      ensures panicked ==> Project(tokens) + [Lexeme(EOF, "", |input| + 1)] == Scan(input, 0, 0)
      ensures old(col) == 0 && old(prevCol) == [] ==> (panicked <==> Panics(input))
    {
      ghost var clean := col == 0 && prevCol == [];
      var state := LexTextState;
      while state != Stop
        invariant state != Stop ==> InBounds() && Project(tokens) + Scan(input, start, pos) == Scan(input, 0, 0)
        invariant state == Stop ==> Project(tokens) == Scan(input, 0, 0)
        invariant state == LexIdentState ==> pos < |input| && IsIdentRune(input[pos])
        invariant clean && state != Stop ==> Synced() || (Drained() && state == LexTextState)
        invariant clean && state != Stop && |input| == 1 && pos == 1 ==> (Drained() <==> Panics(input))
        invariant clean && state == Stop ==> !Panics(input)
        decreases |input| + 1 - pos, if state == LexTextState then 1 else 0
      {
        if state == LexTextState && pos >= |input| && col == 0 && |prevCol| == 0 {
          assert Scan(input, start, pos) == [Lexeme(EOF, "", |input| + 1)];
          return true;
        }
        state := Turn(state);
      }
      closed := true;
      return false;
    }
  }
}
