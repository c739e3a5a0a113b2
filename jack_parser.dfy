/** The grammar the compilation engine recognises, as functions over the token
    stream. The engine reads one current token at a time; `p` is the index of
    that token. Consuming a token moves to the next one only when there is a
    next one (hasMoreTokens), so at the last token the cursor stays put. */
module JackParser {
  import opened Base
  import K = KeywordTypes
  import opened JackTokenizer
  import opened JackSyntax

  /** A phrase recognised from the tokens, and the index of the token after it. */
  datatype Parsed<T> = Parsed(tree: T, next: nat)

  /** The position after consuming the token at p. */
  function Following(toks: seq<Token>, p: nat): (q: nat)
    ensures q == p || q == p + 1
    ensures p < |toks| ==> q < |toks|
  {
    if p + 1 < |toks| then p + 1 else p
  }

  /** getTokenType() == kind; there is no current token past the end. */
  predicate KindIs(toks: seq<Token>, p: nat, kind: TokenType)
  {
    p < |toks| && toks[p].kind == kind
  }

  /** symbol(): the first character of the current token, whatever its kind;
      None where charAt(0) throws. */
  function FirstChar(toks: seq<Token>, p: nat): Option<char>
  {
    if p < |toks| && |toks[p].text| > 0 then Some(toks[p].text[0]) else None
  }

  predicate IsSymbolAt(toks: seq<Token>, p: nat, c: char)
  {
    KindIs(toks, p, SymbolToken) && FirstChar(toks, p) == Some(c)
  }

  /** keyword() of a keyword token. */
  function KeywordAt(toks: seq<Token>, p: nat): Option<K.Keyword>
  {
    if KindIs(toks, p, KeywordToken) then toks[p].keyword else None
  }

  predicate IsKeywordAt(toks: seq<Token>, p: nat, k: K.Keyword)
  {
    KeywordAt(toks, p) == Some(k)
  }

  /** isTokenOperator. */
  predicate OperatorAt(toks: seq<Token>, p: nat)
  {
    KindIs(toks, p, SymbolToken) && FirstChar(toks, p).Some? && FirstChar(toks, p).value in "+-*/&|<>="
  }

  /** isTokenUnaryOperator. */
  predicate UnaryOperatorAt(toks: seq<Token>, p: nat)
  {
    KindIs(toks, p, SymbolToken) && FirstChar(toks, p).Some? && FirstChar(toks, p).value in "-~"
  }

  // Expressions

  /** compileTerm at p. */
  function ParseTerm(toks: seq<Token>, p: nat): (r: Option<Parsed<Term>>)
    ensures r.Some? ==> p < |toks| && p <= r.value.next < |toks|
    ensures r.Some? && KindIs(toks, p, SymbolToken) ==> r.value.next > p
    decreases |toks| - p, 3
  {
    if KindIs(toks, p, KeywordToken) then
      match KeywordAt(toks, p)
      case Some(k) =>
        if k == K.False || k == K.True || k == K.Null || k == K.This then Some(Parsed(KeywordLit(k), Following(toks, p)))
        else None
      case None => None
    else if KindIs(toks, p, IntConst) then
      match IntValue(toks[p].text)
      case Some(v) => Some(Parsed(IntLit(v), Following(toks, p)))
      case None => None
    else if KindIs(toks, p, StringConst) then
      Some(Parsed(StringLit(toks[p].text), Following(toks, p)))
    else if KindIs(toks, p, SymbolToken) then ParseSymbolTerm(toks, p)
    else if KindIs(toks, p, IdentifierToken) then ParseIdentifierTerm(toks, p)
    else None
  }

  /** compileTerm at a symbol: ( expression ), or a unary operator and its term. */
  function ParseSymbolTerm(toks: seq<Token>, p: nat): (r: Option<Parsed<Term>>)
    requires KindIs(toks, p, SymbolToken)
    ensures r.Some? ==> p < r.value.next < |toks|
    decreases |toks| - p, 2
  {
    if FirstChar(toks, p) == Some('(') then
      // at the last token '(' is consumed without moving: the source recurses forever
      if Following(toks, p) == p then None
      else
        match ParseExpr(toks, Following(toks, p))
        case None => None
        case Some(e) =>
          if IsSymbolAt(toks, e.next, ')') then Some(Parsed(Paren(e.tree), Following(toks, e.next))) else None
    else if UnaryOperatorAt(toks, p) then
      if Following(toks, p) == p then None
      else
        match ParseTerm(toks, p + 1)
        case None => None
        case Some(u) => Some(Parsed(Unary(FirstChar(toks, p).value, u.tree), u.next))
    else None
  }

  /** compileTerm at an identifier, decided by the look-ahead token. */
  function ParseIdentifierTerm(toks: seq<Token>, p: nat): (r: Option<Parsed<Term>>)
    requires KindIs(toks, p, IdentifierToken)
    ensures r.Some? ==> p <= r.value.next < |toks|
    decreases |toks| - p, 2
  {
    var x := toks[p].text;
    if p + 1 < |toks| && toks[p + 1].kind == SymbolToken then
      match FirstChar(toks, p + 1)
      case None => None
      case Some(c) =>
        if c == '[' then
          match ParseExpr(toks, Following(toks, p + 1))
          case None => None
          case Some(i) =>
            if IsSymbolAt(toks, i.next, ']') then Some(Parsed(ArrayRef(x, i.tree), Following(toks, i.next))) else None
        else if c == '.' || c == '(' then
          match ParseCall(toks, p)
          case None => None
          case Some(c) => Some(Parsed(CallRef(c.tree), c.next))
        else Some(Parsed(VarRef(x), p + 1))
    else
      // the look-ahead token is not a symbol: it is not reset, and nothing is emitted
      Some(Parsed(Skipped(x), Following(toks, p)))
  }

  /** compileExpression at p: a term, then (op term)* while the current token is an operator. */
  function ParseExpr(toks: seq<Token>, p: nat): (r: Option<Parsed<Expr>>)
    ensures r.Some? ==> p < |toks| && p <= r.value.next < |toks|
    ensures r.Some? && KindIs(toks, p, SymbolToken) ==> r.value.next > p
    decreases |toks| - p, 5
  {
    match ParseTerm(toks, p)
    case None => None
    case Some(t) => ParseExprRest(toks, t.next, Single(t.tree))
  }

  function ParseExprRest(toks: seq<Token>, p: nat, acc: Expr): (r: Option<Parsed<Expr>>)
    requires p < |toks|
    ensures r.Some? ==> p <= r.value.next < |toks|
    decreases |toks| - p, 4
  {
    if OperatorAt(toks, p) then
      match ParseTerm(toks, Following(toks, p))
      case None => None
      case Some(t) =>
        // an operator at the last token is followed by a term that starts at that operator
        assert t.next > p;
        ParseExprRest(toks, t.next, Binary(acc, FirstChar(toks, p).value, t.tree))
    else Some(Parsed(acc, p))
  }

  /** compileExpressionList at p: empty when the current token is ')'. */
  function ParseExprList(toks: seq<Token>, p: nat): (r: Option<Parsed<seq<Expr>>>)
    ensures r.Some? ==> p <= r.value.next && (p < |toks| ==> r.value.next < |toks|)
    decreases |toks| - p, 7
  {
    if IsSymbolAt(toks, p, ')') then Some(Parsed([], p))
    else
      match ParseExpr(toks, p)
      case None => None
      case Some(e) => ParseExprListRest(toks, e.next, [e.tree])
  }

  function ParseExprListRest(toks: seq<Token>, p: nat, acc: seq<Expr>): (r: Option<Parsed<seq<Expr>>>)
    requires p < |toks|
    ensures r.Some? ==> p <= r.value.next < |toks|
    decreases |toks| - p, 6
  {
    if IsSymbolAt(toks, p, ',') then
      match ParseExpr(toks, Following(toks, p))
      case None => None
      case Some(e) =>
        assert e.next > p;
        ParseExprListRest(toks, e.next, acc + [e.tree])
    else Some(Parsed(acc, p))
  }

  /** compileSubRoutineCall at p: name(args) or qualifier.name(args). */
  function ParseCall(toks: seq<Token>, p: nat): (r: Option<Parsed<SubroutineCall>>)
    ensures r.Some? ==> p < r.value.next < |toks|
    decreases |toks| - p, 1
  {
    if !KindIs(toks, p, IdentifierToken) then None
    else
      var x := toks[p].text;
      var p1 := Following(toks, p);
      match FirstChar(toks, p1)
      case None => None
      case Some(c) =>
        if c == '.' then
          if !IsSymbolAt(toks, p1, '.') || !KindIs(toks, Following(toks, p1), IdentifierToken) then None
          else
            var p2 := Following(toks, p1);
            ParseArgs(toks, p, Some(x), toks[p2].text, Following(toks, p2))
        else ParseArgs(toks, p, None, x, p1)
  }

  /** The argument list of a call that starts at p, from the token q after its
      name: '(' expressionList ')'. Without a qualifier, q may still be the
      identifier at p, at the last token. */
  function ParseArgs(toks: seq<Token>, p: nat, qualifier: Option<string>, name: string, q: nat): (r: Option<Parsed<SubroutineCall>>)
    requires p < q || KindIs(toks, q, IdentifierToken)
    ensures r.Some? ==> p < q <= r.value.next < |toks|
    ensures r.Some? ==> r.value.tree == SubroutineCall(qualifier, name, r.value.tree.args)
    decreases |toks| - p, 0
  {
    if !IsSymbolAt(toks, q, '(') then None
    else
      match ParseExprList(toks, Following(toks, q))
      case None => None
      case Some(a) =>
        if IsSymbolAt(toks, a.next, ')') then Some(Parsed(SubroutineCall(qualifier, name, a.tree), Following(toks, a.next)))
        else None
  }

  // Statements

  predicate StartsStatement(toks: seq<Token>, p: nat)
  {
    KeywordAt(toks, p) in {Some(K.While), Some(K.If), Some(K.Let), Some(K.Do), Some(K.Return)}
  }

  /** compileStatements at p: statements while the current token is one of
      the five statement keywords; acc holds those already recognised. */
  function ParseStatementsFrom(toks: seq<Token>, p: nat, acc: seq<Statement>): (r: Option<Parsed<seq<Statement>>>)
    ensures r.Some? ==> p <= r.value.next && (p < |toks| ==> r.value.next < |toks|)
    decreases |toks| - p, 10
  {
    if StartsStatement(toks, p) then
      match ParseStatement(toks, p)
      case None => None
      case Some(s) => ParseStatementsFrom(toks, s.next, acc + [s.tree])
    else Some(Parsed(acc, p))
  }

  function ParseStatement(toks: seq<Token>, p: nat): (r: Option<Parsed<Statement>>)
    requires StartsStatement(toks, p)
    ensures r.Some? ==> p < r.value.next < |toks|
    decreases |toks| - p, 9
  {
    match KeywordAt(toks, p).value
    case While => ParseWhile(toks, p)
    case If => ParseIf(toks, p)
    case Let => ParseLet(toks, p)
    case Do => ParseDo(toks, p)
    case Return => ParseReturn(toks, p)
  }

  /** while ( expression ) { statements } */
  function ParseWhile(toks: seq<Token>, p: nat): (r: Option<Parsed<Statement>>)
    requires IsKeywordAt(toks, p, K.While)
    ensures r.Some? ==> p < r.value.next < |toks|
    decreases |toks| - p, 8
  {
    match ParseCondition(toks, Following(toks, p))
    case None => None
    case Some(c) =>
      match ParseBlock(toks, c.next)
      case None => None
      case Some(b) => Some(Parsed(WhileStmt(c.tree, b.tree), b.next))
  }

  /** if ( expression ) { statements } [else { statements }] */
  function ParseIf(toks: seq<Token>, p: nat): (r: Option<Parsed<Statement>>)
    requires IsKeywordAt(toks, p, K.If)
    ensures r.Some? ==> p < r.value.next < |toks|
    decreases |toks| - p, 8
  {
    match ParseCondition(toks, Following(toks, p))
    case None => None
    case Some(c) =>
      match ParseBranches(toks, c.next)
      case None => None
      case Some(b) => Some(Parsed(IfOf(c.tree, b.tree), b.next))
  }

  /** The two branches of an if statement, the second one optional. */
  datatype Branches = Branches(thenPart: seq<Statement>, elsePart: Option<seq<Statement>>)

  /** The if statement with condition c and branches b. */
  function IfOf(c: Expr, b: Branches): (s: Statement)
    ensures s.IfStmt? || s.IfElseStmt?
    ensures s.cond == c && s.thenPart == b.thenPart && (s.IfElseStmt? <==> b.elsePart.Some?)
    ensures s.IfElseStmt? ==> s.elsePart == b.elsePart.value
  {
    match b.elsePart
    case None => IfStmt(c, b.thenPart)
    case Some(e) => IfElseStmt(c, b.thenPart, e)
  }

  /** { statements } [else { statements }]: the two branches of an if statement. */
  function ParseBranches(toks: seq<Token>, p: nat): (r: Option<Parsed<Branches>>)
    ensures r.Some? ==> p < r.value.next < |toks|
    decreases |toks| - p, 12
  {
    match ParseBlock(toks, p)
    case None => None
    case Some(t) =>
      match ParseElseOpt(toks, t.next)
      case None => None
      case Some(e) => Some(Parsed(Branches(t.tree, e.tree), e.next))
  }

  /** [else { statements }]: an else part follows when the token at p is the
      keyword else; otherwise nothing is consumed. */
  function ParseElseOpt(toks: seq<Token>, p: nat): (r: Option<Parsed<Option<seq<Statement>>>>)
    ensures r.Some? ==> (r.value.tree.None? <==> r.value.next == p)
    ensures r.Some? && r.value.tree.Some? ==> p < r.value.next < |toks|
    decreases |toks| - p, 12
  {
    if IsKeywordAt(toks, p, K.Else) then
      match ParseBlock(toks, Following(toks, p))
      case None => None
      case Some(e) => Some(Parsed(Some(e.tree), e.next))
    else Some(Parsed(None, p))
  }

  /** ( expression ): the condition of while and if. */
  function ParseCondition(toks: seq<Token>, p: nat): (r: Option<Parsed<Expr>>)
    ensures r.Some? ==> p < r.value.next < |toks|
    decreases |toks| - p, 6
  {
    if !IsSymbolAt(toks, p, '(') then None
    else
      match ParseExpr(toks, Following(toks, p))
      case None => None
      case Some(c) =>
        if IsSymbolAt(toks, c.next, ')') then Some(Parsed(c.tree, Following(toks, c.next))) else None
  }

  /** { statements }: the body of while, and both branches of if. */
  function ParseBlock(toks: seq<Token>, p: nat): (r: Option<Parsed<seq<Statement>>>)
    ensures r.Some? ==> p < r.value.next < |toks|
    decreases |toks| - p, 11
  {
    if !IsSymbolAt(toks, p, '{') then None
    else
      match ParseStatementsFrom(toks, Following(toks, p), [])
      case None => None
      case Some(b) =>
        if IsSymbolAt(toks, b.next, '}') then Some(Parsed(b.tree, Following(toks, b.next))) else None
  }

    /** let name = expression ; or let name [ expression ] = expression ; The
      choice is made on symbol() of the token after the name, whatever its kind. */
  function ParseLet(toks: seq<Token>, p: nat): (r: Option<Parsed<Statement>>)
    requires IsKeywordAt(toks, p, K.Let)
    ensures r.Some? ==> p < r.value.next < |toks|
    decreases |toks| - p, 8
  {
    var p1 := Following(toks, p);
    if !KindIs(toks, p1, IdentifierToken) then None
    else
      var p2 := Following(toks, p1);
      match FirstChar(toks, p2)
      case None => None
      case Some(c) =>
        if c == '[' then ParseLetIndexed(toks, p, toks[p1].text, p2)
        else ParseLetValue(toks, p, toks[p1].text, None, p2)
  }

  /** let x [ index ] = value ; from the '['. */
  function ParseLetIndexed(toks: seq<Token>, start: nat, x: string, p2: nat): (r: Option<Parsed<Statement>>)
    requires IsKeywordAt(toks, start, K.Let) && p2 == Following(toks, Following(toks, start))
    ensures r.Some? ==> start < r.value.next < |toks| && r.value.tree.LetIndexedStmt? && r.value.tree.name == x
    decreases |toks| - start, 7
  {
    if !IsSymbolAt(toks, p2, '[') then None
    else
      assert start < p2;
      match ParseExpr(toks, Following(toks, p2))
      case None => None
      case Some(i) =>
        if !IsSymbolAt(toks, i.next, ']') then None
        else ParseLetValue(toks, start, x, Some(i.tree), Following(toks, i.next))
  }

  /** = value ; ending a let statement whose target, x or x[index], was read
      from start on. */
  function ParseLetValue(toks: seq<Token>, start: nat, x: string, index: Option<Expr>, p: nat): (r: Option<Parsed<Statement>>)
    requires IsKeywordAt(toks, start, K.Let) && start <= p
    ensures r.Some? ==> start < r.value.next < |toks| && (r.value.tree.LetStmt? || r.value.tree.LetIndexedStmt?)
                        && r.value.tree == LetOf(x, index, r.value.tree.rhs)
    decreases |toks| - start, 6
  {
    if !IsSymbolAt(toks, p, '=') then None
    else
      match ParseExpr(toks, Following(toks, p))
      case None => None
      case Some(v) =>
        if IsSymbolAt(toks, v.next, ';') then Some(Parsed(LetOf(x, index, v.tree), Following(toks, v.next)))
        else None
  }

  /** The let statement assigning value to x, or to x[index]. */
  function LetOf(x: string, index: Option<Expr>, value: Expr): (s: Statement)
    ensures (s.LetStmt? || s.LetIndexedStmt?) && s.name == x && s.rhs == value
  {
    match index
    case None => LetStmt(x, value)
    case Some(i) => LetIndexedStmt(x, i, value)
  }

  /** do subroutineCall ; */
  function ParseDo(toks: seq<Token>, p: nat): (r: Option<Parsed<Statement>>)
    requires IsKeywordAt(toks, p, K.Do)
    ensures r.Some? ==> p < r.value.next < |toks|
    decreases |toks| - p, 8
  {
    match ParseCall(toks, Following(toks, p))
    case None => None
    case Some(c) =>
      if IsSymbolAt(toks, c.next, ';') then Some(Parsed(DoStmt(c.tree), Following(toks, c.next))) else None
  }

  /** return [expression] ; where an expression is read unless the next token is a symbol. */
  function ParseReturn(toks: seq<Token>, p: nat): (r: Option<Parsed<Statement>>)
    requires IsKeywordAt(toks, p, K.Return)
    ensures r.Some? ==> p < r.value.next < |toks|
    decreases |toks| - p, 8
  {
    assert KindIs(toks, p, KeywordToken);
    var p1 := Following(toks, p);
    if !KindIs(toks, p1, SymbolToken) then
      match ParseExpr(toks, p1)
      case None => None
      case Some(e) =>
        if IsSymbolAt(toks, e.next, ';') then
          assert e.next != p;
          Some(Parsed(ReturnValue(e.tree), Following(toks, e.next)))
        else None
    else if IsSymbolAt(toks, p1, ';') then Some(Parsed(ReturnVoid, Following(toks, p1)))
    else None
  }

  // Declarations

  /** A type: a class name, or one of the keywords int, char and boolean.
      (Where the engine finds neither it stops at the next identifier it
      requires, so every such declaration fails the same way.) */
  function ParseType(toks: seq<Token>, p: nat): (r: Option<Parsed<JackType>>)
    ensures r.Some? ==> p < |toks| && r.value.next == Following(toks, p)
  {
    if KindIs(toks, p, IdentifierToken) then Some(Parsed(ClassType(toks[p].text), Following(toks, p)))
    else if IsKeywordAt(toks, p, K.Int) then Some(Parsed(IntType, Following(toks, p)))
    else if IsKeywordAt(toks, p, K.Char) then Some(Parsed(CharType, Following(toks, p)))
    else if IsKeywordAt(toks, p, K.Boolean) then Some(Parsed(BooleanType, Following(toks, p)))
    else None
  }

  /** name (, name)*: consumeIdentifier, then another one after each ','. */
  function ParseNameList(toks: seq<Token>, p: nat): (r: Option<Parsed<seq<string>>>)
    ensures r.Some? ==> p < |toks| && p <= r.value.next < |toks| && |r.value.tree| > 0
  {
    if KindIs(toks, p, IdentifierToken) then ParseMoreNames(toks, Following(toks, p), [toks[p].text])
    else None
  }

  function ParseMoreNames(toks: seq<Token>, p: nat, acc: seq<string>): (r: Option<Parsed<seq<string>>>)
    requires p < |toks|
    ensures r.Some? ==> p <= r.value.next < |toks| && |r.value.tree| >= |acc|
    decreases |toks| - p
  {
    if IsSymbolAt(toks, p, ',') then
      var p1 := Following(toks, p);
      if KindIs(toks, p1, IdentifierToken) then ParseMoreNames(toks, Following(toks, p1), acc + [toks[p1].text])
      else None
    else Some(Parsed(acc, p))
  }

  /** compileClassVarDec: static|field type name (, name)* ; */
  function ParseClassVarDec(toks: seq<Token>, p: nat): (r: Option<Parsed<ClassVarDec>>)
    ensures r.Some? ==> p < r.value.next < |toks|
  {
    if !(IsKeywordAt(toks, p, K.Static) || IsKeywordAt(toks, p, K.Field)) then None
    else
      match ParseType(toks, Following(toks, p))
      case None => None
      case Some(t) =>
        match ParseNameList(toks, t.next)
        case None => None
        case Some(ns) =>
          if IsSymbolAt(toks, ns.next, ';') then
            Some(Parsed(ClassVarDec(IsKeywordAt(toks, p, K.Static), t.tree, ns.tree), Following(toks, ns.next)))
          else None
  }

  predicate StartsClassVarDec(toks: seq<Token>, p: nat)
  {
    IsKeywordAt(toks, p, K.Static) || IsKeywordAt(toks, p, K.Field)
  }

  /** The class variable declarations while the current token is static or field. */
  function ParseClassVarDecs(toks: seq<Token>, p: nat, acc: seq<ClassVarDec>): (r: Option<Parsed<seq<ClassVarDec>>>)
    ensures r.Some? ==> p <= r.value.next && (p < |toks| ==> r.value.next < |toks|)
    decreases |toks| - p
  {
    if StartsClassVarDec(toks, p) then
      match ParseClassVarDec(toks, p)
      case None => None
      case Some(d) => ParseClassVarDecs(toks, d.next, acc + [d.tree])
    else Some(Parsed(acc, p))
  }

  /** compileParameterList: nothing before ')'; otherwise parameters, each
      after an optional ',' (consumeSymbolWeak), while a ',' follows. */
  function ParseParameterList(toks: seq<Token>, p: nat): (r: Option<Parsed<seq<Parameter>>>)
    ensures r.Some? ==> p <= r.value.next && (p < |toks| ==> r.value.next < |toks|)
  {
    if IsSymbolAt(toks, p, ')') then Some(Parsed([], p))
    else ParseParameters(toks, p, [])
  }

  function ParseParameters(toks: seq<Token>, p: nat, acc: seq<Parameter>): (r: Option<Parsed<seq<Parameter>>>)
    ensures r.Some? ==> p <= r.value.next < |toks|
    decreases |toks| - p
  {
    var p0 := if IsSymbolAt(toks, p, ',') then Following(toks, p) else p;
    match ParseType(toks, p0)
    case None => None
    case Some(t) =>
      if !KindIs(toks, t.next, IdentifierToken) then None
      else
        var ps := acc + [Parameter(t.tree, toks[t.next].text)];
        var p3 := Following(toks, t.next);
        if IsSymbolAt(toks, p3, ',') then ParseParameters(toks, p3, ps)
        else Some(Parsed(ps, p3))
  }

  /** compileVarDec: var type name (, name)* ; */
  function ParseVarDec(toks: seq<Token>, p: nat): (r: Option<Parsed<VarDec>>)
    requires IsKeywordAt(toks, p, K.Var)
    ensures r.Some? ==> p < r.value.next < |toks|
  {
    match ParseType(toks, Following(toks, p))
    case None => None
    case Some(t) =>
      match ParseNameList(toks, t.next)
      case None => None
      case Some(ns) =>
        if IsSymbolAt(toks, ns.next, ';') then Some(Parsed(VarDec(t.tree, ns.tree), Following(toks, ns.next)))
        else None
  }

  /** The local variable declarations while the current token is var. */
  function ParseVarDecs(toks: seq<Token>, p: nat, acc: seq<VarDec>): (r: Option<Parsed<seq<VarDec>>>)
    ensures r.Some? ==> p <= r.value.next && (p < |toks| ==> r.value.next < |toks|)
    decreases |toks| - p
  {
    if IsKeywordAt(toks, p, K.Var) then
      match ParseVarDec(toks, p)
      case None => None
      case Some(d) => ParseVarDecs(toks, d.next, acc + [d.tree])
    else Some(Parsed(acc, p))
  }

  function SubroutineKindAt(toks: seq<Token>, p: nat): Option<SubroutineKind>
  {
    if IsKeywordAt(toks, p, K.Constructor) then Some(ConstructorSub)
    else if IsKeywordAt(toks, p, K.Function) then Some(FunctionSub)
    else if IsKeywordAt(toks, p, K.Method) then Some(MethodSub)
    else None
  }

  /** A return type: a class name, or void, int, char or boolean. */
  predicate ReturnTypeAt(toks: seq<Token>, p: nat)
  {
    KindIs(toks, p, IdentifierToken) || IsKeywordAt(toks, p, K.Void) || IsKeywordAt(toks, p, K.Int)
    || IsKeywordAt(toks, p, K.Char) || IsKeywordAt(toks, p, K.Boolean)
  }

  /** compileSubroutineDec: kind returnType name ( parameterList ) subroutineBody */
  function ParseSubroutineDec(toks: seq<Token>, p: nat): (r: Option<Parsed<SubroutineDec>>)
    ensures r.Some? ==> p < r.value.next < |toks|
  {
    match SubroutineKindAt(toks, p)
    case None => None
    case Some(kind) => ParseSubroutineHeading(toks, Following(toks, p), kind)
  }

  /** The part of compileSubroutineDec after its keyword: returnType name, then the rest. */
  function ParseSubroutineHeading(toks: seq<Token>, p: nat, kind: SubroutineKind): (r: Option<Parsed<SubroutineDec>>)
    ensures r.Some? ==> p < r.value.next < |toks| && r.value.tree.kind == kind
  {
    var p1 := Following(toks, p);
    if !ReturnTypeAt(toks, p) || !KindIs(toks, p1, IdentifierToken) then None
    else ParseSubroutineRest(toks, Following(toks, p1), kind, toks[p1].text)
  }

  /** The part of compileSubroutineDec after the subroutine's name:
      ( parameterList ) subroutineBody */
  function ParseSubroutineRest(toks: seq<Token>, p: nat, kind: SubroutineKind, name: string): (r: Option<Parsed<SubroutineDec>>)
    ensures r.Some? ==> p < r.value.next < |toks| && r.value.tree.kind == kind && r.value.tree.name == name
  {
    if !IsSymbolAt(toks, p, '(') then None
    else
      match ParseParameterList(toks, Following(toks, p))
      case None => None
      case Some(ps) =>
        if !IsSymbolAt(toks, ps.next, ')') then None
        else ParseSubroutineBody(toks, Following(toks, ps.next), kind, name, ps.tree)
  }

  /** compileSubroutineBody: { varDec* statements } */
  function ParseSubroutineBody(toks: seq<Token>, p: nat, kind: SubroutineKind, name: string,
                               params: seq<Parameter>): (r: Option<Parsed<SubroutineDec>>)
    ensures r.Some? ==> p < r.value.next < |toks|
    ensures r.Some? ==> r.value.tree.kind == kind && r.value.tree.name == name && r.value.tree.params == params
  {
    if !IsSymbolAt(toks, p, '{') then None
    else
      match ParseVarDecs(toks, Following(toks, p), [])
      case None => None
      case Some(ls) =>
        match ParseStatementsFrom(toks, ls.next, [])
        case None => None
        case Some(b) =>
          if IsSymbolAt(toks, b.next, '}') then
            Some(Parsed(SubroutineDec(kind, name, params, ls.tree, b.tree), Following(toks, b.next)))
          else None
  }

  /** The subroutine declarations while the current token is constructor, function or method. */
  function ParseSubroutineDecs(toks: seq<Token>, p: nat, acc: seq<SubroutineDec>): (r: Option<Parsed<seq<SubroutineDec>>>)
    ensures r.Some? ==> p <= r.value.next && (p < |toks| ==> r.value.next < |toks|)
    decreases |toks| - p
  {
    if SubroutineKindAt(toks, p).Some? then
      match ParseSubroutineDec(toks, p)
      case None => None
      case Some(d) => ParseSubroutineDecs(toks, d.next, acc + [d.tree])
    else Some(Parsed(acc, p))
  }

  /** A subroutine list parsed after the declarations acc starts with acc. */
  lemma {:induction false} SubroutineDecsExtend(toks: seq<Token>, p: nat, acc: seq<SubroutineDec>)
    requires ParseSubroutineDecs(toks, p, acc).Some?
    ensures |ParseSubroutineDecs(toks, p, acc).value.tree| >= |acc|
    ensures ParseSubroutineDecs(toks, p, acc).value.tree[..|acc|] == acc
    decreases |toks| - p
  {
    if SubroutineKindAt(toks, p).Some? {
      var d := ParseSubroutineDec(toks, p).value;
      SubroutineDecsExtend(toks, d.next, acc + [d.tree]);
      assert (acc + [d.tree])[..|acc|] == acc;
    }
  }

  /** compileClass: class name { classVarDec* subroutineDec* } */
  function ParseClass(toks: seq<Token>, p: nat): (r: Option<Parsed<ClassDec>>)
    ensures r.Some? ==> p < r.value.next < |toks|
  {
    var p1 := Following(toks, p);
    if !IsKeywordAt(toks, p, K.Class) || !KindIs(toks, p1, IdentifierToken) then None
    else ParseClassBody(toks, Following(toks, p1), toks[p1].text)
  }

  /** The part of compileClass after the class name: { classVarDec* subroutineDec* } */
  function ParseClassBody(toks: seq<Token>, p: nat, name: string): (r: Option<Parsed<ClassDec>>)
    ensures r.Some? ==> p < r.value.next < |toks| && r.value.tree.name == name
  {
    if !IsSymbolAt(toks, p, '{') then None
    else
      match ParseClassVarDecs(toks, Following(toks, p), [])
      case None => None
      case Some(vs) =>
        match ParseSubroutineDecs(toks, vs.next, [])
        case None => None
        case Some(ss) =>
          if IsSymbolAt(toks, ss.next, '}') then
            Some(Parsed(ClassDec(name, vs.tree, ss.tree), Following(toks, ss.next)))
          else None
  }
}
