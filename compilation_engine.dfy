/** The compilation engine: a recursive-descent translator that reads the
    current token, emits VM code through the writer as it goes, fills the
    two symbol tables and numbers labels with a counter. Each compile method
    is proved to accept exactly the phrases the grammar functions recognise
    whose names resolve, to stop on the token after them, and to emit the
    code of that phrase. */
module CompilationEngine {
  import opened Base
  import K = KeywordTypes
  import opened JackTokenizer
  import ST = SymbolTables
  import opened VMWriter
  import W = VMWriterClass
  import opened JackSyntax
  import opened JackParser
  import opened CodeGen
  import opened Declarations

  /** What follows an expression's first term only ever adds to its left:
      when the whole expression resolves, so does every left part. */
  lemma {:induction false} ExprRestKeepsResolved(env: Env, toks: seq<Token>, p: nat, acc: Expr)
    requires p < |toks| && ParseExprRest(toks, p, acc).Some?
    requires ExprResolved(env, ParseExprRest(toks, p, acc).value.tree)
    ensures ExprResolved(env, acc)
    decreases |toks| - p
  {
    if OperatorAt(toks, p) {
      var t := ParseTerm(toks, Following(toks, p)).value;
      ExprRestKeepsResolved(env, toks, t.next, Binary(acc, FirstChar(toks, p).value, t.tree));
    }
  }

  lemma {:induction false} ArgsRestKeepsResolved(env: Env, toks: seq<Token>, p: nat, acc: seq<Expr>)
    requires p < |toks| && ParseExprListRest(toks, p, acc).Some?
    requires ArgsResolved(env, ParseExprListRest(toks, p, acc).value.tree)
    ensures ArgsResolved(env, acc)
    decreases |toks| - p
  {
    if IsSymbolAt(toks, p, ',') {
      var e := ParseExpr(toks, Following(toks, p)).value;
      ArgsRestKeepsResolved(env, toks, e.next, acc + [e.tree]);
      assert (acc + [e.tree])[..|acc|] == acc;
    }
  }

  /** What ParseExprList reads once its first expression is found. */
  lemma ExprListIsRest(toks: seq<Token>, p: nat)
    requires !IsSymbolAt(toks, p, ')') && ParseExpr(toks, p).Some?
    ensures ParseExprList(toks, p) == ParseExprListRest(toks, ParseExpr(toks, p).value.next, [ParseExpr(toks, p).value.tree])
  {
  }

  /** A first expression that fails or does not resolve fails the list. */
  lemma ExprListFirstFails(toks: seq<Token>, p: nat, env: Env)
    requires !IsSymbolAt(toks, p, ')')
    requires !(ParseExpr(toks, p).Some? && ExprResolved(env, ParseExpr(toks, p).value.tree))
    ensures !(ParseExprList(toks, p).Some? && ArgsResolved(env, ParseExprList(toks, p).value.tree))
  {
    var first := ParseExpr(toks, p);
    if first.Some? {
      ExprListIsRest(toks, p);
      if ParseExprList(toks, p).Some? && ArgsResolved(env, ParseExprList(toks, p).value.tree) {
        ArgsRestKeepsResolved(env, toks, first.value.next, [first.value.tree]);
        SingleArg(env, first.value.tree);
      }
    }
  }

  /** The argument list of one expression. */
  lemma SingleArg(env: Env, e: Expr)
    ensures ArgsCode(env, [e]) == ExprCode(env, e)
    ensures ArgsResolved(env, [e]) <==> ExprResolved(env, e)
  {
    ArgsCodeAppend(env, [], e);
    assert [] + [e] == [e];
  }

  lemma ArgsCodeAppend(env: Env, acc: seq<Expr>, e: Expr)
    ensures ArgsCode(env, acc + [e]) == ArgsCode(env, acc) + ExprCode(env, e)
    ensures ArgsResolved(env, acc + [e]) <==> ArgsResolved(env, acc) && ExprResolved(env, e)
  {
    assert (acc + [e])[..|acc|] == acc;
  }

  lemma {:induction false} StmtsRestKeepsResolved(env: Env, toks: seq<Token>, p: nat, acc: seq<Statement>)
    requires ParseStatementsFrom(toks, p, acc).Some?
    requires StmtsResolved(env, ParseStatementsFrom(toks, p, acc).value.tree)
    ensures StmtsResolved(env, acc)
    decreases |toks| - p
  {
    if StartsStatement(toks, p) {
      var st := ParseStatement(toks, p).value;
      StmtsRestKeepsResolved(env, toks, st.next, acc + [st.tree]);
      assert (acc + [st.tree])[..|acc|] == acc;
    }
  }

  lemma StmtsCodeAppend(env: Env, acc: seq<Statement>, st: Statement, n: nat)
    ensures StmtsCode(env, acc + [st], n) == StmtsCode(env, acc, n) + StmtCode(env, st, n + UsedAll(acc))
    ensures UsedAll(acc + [st]) == UsedAll(acc) + Used(st)
    ensures StmtsResolved(env, acc + [st]) <==> StmtsResolved(env, acc) && StmtResolved(env, st)
  {
    assert (acc + [st])[..|acc|] == acc;
  }

  /** One round of the statements loop: a compiled statement extends the
      sequence read so far, and a statement that fails fails the sequence. */
  lemma StatementsStepOutcome(toks: seq<Token>, p0: nat, q: nat, env: Env, acc: seq<Statement>,
                              c0: seq<Command>, n0: nat, cq: seq<Command>, n: nat,
                              ok: bool, p: nat, nl: nat, code: seq<Command>)
    requires StartsStatement(toks, q) && ParseStatementsFrom(toks, p0, []) == ParseStatementsFrom(toks, q, acc)
    requires StmtsResolved(env, acc) && cq == c0 + StmtsCode(env, acc, n0) && n == n0 + UsedAll(acc)
    requires ok <==> ParseStatement(toks, q).Some? && StmtResolved(env, ParseStatement(toks, q).value.tree)
    requires ok ==> p == ParseStatement(toks, q).value.next
                    && nl == n + Used(ParseStatement(toks, q).value.tree)
                    && code == cq + StmtCode(env, ParseStatement(toks, q).value.tree, n)
    ensures !ok ==> !(ParseStatementsFrom(toks, p0, []).Some? && StmtsResolved(env, ParseStatementsFrom(toks, p0, []).value.tree))
    ensures ok ==> var acc' := acc + [ParseStatement(toks, q).value.tree];
                   && ParseStatementsFrom(toks, p0, []) == ParseStatementsFrom(toks, p, acc')
                   && StmtsResolved(env, acc')
                   && code == c0 + StmtsCode(env, acc', n0) && nl == n0 + UsedAll(acc')
  {
    var st := ParseStatement(toks, q);
    if st.Some? {
      StmtsCodeAppend(env, acc, st.value.tree, n0);
      if !ok && ParseStatementsFrom(toks, p0, []).Some? && StmtsResolved(env, ParseStatementsFrom(toks, p0, []).value.tree) {
        StmtsRestKeepsResolved(env, toks, st.value.next, acc + [st.value.tree]);
      }
      if ok {
        AppendAssoc3(c0, StmtsCode(env, acc, n0), StmtCode(env, st.value.tree, n));
      }
    }
  }

  lemma AppendAssoc3(a: seq<Command>, b: seq<Command>, c: seq<Command>)
    ensures a + b + c == a + (b + c)
  {
  }

  lemma AppendAssoc4(a: seq<Command>, b: seq<Command>, c: seq<Command>, d: seq<Command>)
    ensures a + b + c + d == a + (b + c + d)
  {
  }

  lemma AppendAssoc5(a: seq<Command>, b: seq<Command>, c: seq<Command>, d: seq<Command>, e: seq<Command>)
    ensures a + b + c + d + e == a + (b + c + d + e)
  {
  }

  lemma AppendAssoc6(a: seq<Command>, b: seq<Command>, c: seq<Command>, d: seq<Command>, e: seq<Command>, f: seq<Command>)
    ensures a + b + c + d + e + f == a + (b + c + d + e + f)
  {
  }

  /** The code of the optional else part of an if statement whose first
      label is skip, the else part's own label being number m. */
  ghost function ElseCode(env: Env, e: Option<seq<Statement>>, skip: string, m: nat): seq<Command>
  {
    match e
    case None => [Label(skip)]
    case Some(b) => [Goto(LabelName(m)), Label(skip)] + StmtsCode(env, b, m + 1) + [Label(LabelName(m))]
  }

  ghost function ElseUsed(e: Option<seq<Statement>>): nat
  {
    match e
    case None => 0
    case Some(b) => 1 + UsedAll(b)
  }

  ghost predicate ElseResolved(env: Env, e: Option<seq<Statement>>)
  {
    e.Some? ==> StmtsResolved(env, e.value)
  }

  /** The code of the branches of an if statement whose condition has been
      compiled, the first label being number n. */
  ghost function BranchesCode(env: Env, b: Branches, n: nat): seq<Command>
  {
    [Not, IfGoto(LabelName(n))] + StmtsCode(env, b.thenPart, n + 1)
    + ElseCode(env, b.elsePart, LabelName(n), n + 1 + UsedAll(b.thenPart))
  }

  ghost function BranchesUsed(b: Branches): nat
  {
    1 + UsedAll(b.thenPart) + ElseUsed(b.elsePart)
  }

  ghost predicate BranchesResolved(env: Env, b: Branches)
  {
    StmtsResolved(env, b.thenPart) && ElseResolved(env, b.elsePart)
  }

  /** What ParseLet reads after let and the variable's name: an indexed
      target at '[', the value part otherwise. */
  lemma LetShape(toks: seq<Token>, p: nat)
    requires IsKeywordAt(toks, p, K.Let) && KindIs(toks, Following(toks, p), IdentifierToken)
    requires FirstChar(toks, Following(toks, Following(toks, p))).Some?
    ensures ParseLet(toks, p)
         == if FirstChar(toks, Following(toks, Following(toks, p))).value == '['
            then ParseLetIndexed(toks, p, toks[Following(toks, p)].text, Following(toks, Following(toks, p)))
            else ParseLetValue(toks, p, toks[Following(toks, p)].text, None, Following(toks, Following(toks, p)))
  {
  }

  lemma LetFails(toks: seq<Token>, p: nat)
    requires IsKeywordAt(toks, p, K.Let)
    requires !KindIs(toks, Following(toks, p), IdentifierToken) || FirstChar(toks, Following(toks, Following(toks, p))).None?
    ensures ParseLet(toks, p).None?
  {
  }

  /** A let statement whose variable is not found does not resolve. */
  lemma LetUnresolved(toks: seq<Token>, p: nat, env: Env)
    requires IsKeywordAt(toks, p, K.Let) && KindIs(toks, Following(toks, p), IdentifierToken)
    requires VarKind(env, toks[Following(toks, p)].text).None?
    ensures !(ParseLet(toks, p).Some? && StmtResolved(env, ParseLet(toks, p).value.tree))
  {
    if FirstChar(toks, Following(toks, Following(toks, p))).Some? {
      LetShape(toks, p);
    } else {
      LetFails(toks, p);
    }
  }

  /** What ParseLetIndexed reads once the index and its closing bracket are found. */
  lemma IndexedIsValue(toks: seq<Token>, start: nat, x: string, p2: nat)
    requires IsKeywordAt(toks, start, K.Let) && p2 == Following(toks, Following(toks, start))
    requires IsSymbolAt(toks, p2, '[') && ParseExpr(toks, Following(toks, p2)).Some?
    requires IsSymbolAt(toks, ParseExpr(toks, Following(toks, p2)).value.next, ']')
    ensures ParseLetIndexed(toks, start, x, p2)
         == ParseLetValue(toks, start, x, Some(ParseExpr(toks, Following(toks, p2)).value.tree),
                          Following(toks, ParseExpr(toks, Following(toks, p2)).value.next))
  {
  }

  lemma IndexedFails(toks: seq<Token>, start: nat, x: string, p2: nat)
    requires IsKeywordAt(toks, start, K.Let) && p2 == Following(toks, Following(toks, start))
    requires !IsSymbolAt(toks, p2, '[') || ParseExpr(toks, Following(toks, p2)).None?
          || !IsSymbolAt(toks, ParseExpr(toks, Following(toks, p2)).value.next, ']')
    ensures ParseLetIndexed(toks, start, x, p2).None?
  {
  }

  /** An index that does not resolve leaves the let statement unresolved. */
  lemma IndexUnresolved(toks: seq<Token>, start: nat, x: string, p2: nat, env: Env)
    requires IsKeywordAt(toks, start, K.Let) && p2 == Following(toks, Following(toks, start))
    requires IsSymbolAt(toks, p2, '[') && ParseExpr(toks, Following(toks, p2)).Some?
    requires !ExprResolved(env, ParseExpr(toks, Following(toks, p2)).value.tree)
    ensures !(ParseLetIndexed(toks, start, x, p2).Some? && StmtResolved(env, ParseLetIndexed(toks, start, x, p2).value.tree))
  {
    if IsSymbolAt(toks, ParseExpr(toks, Following(toks, p2)).value.next, ']') {
      IndexedIsValue(toks, start, x, p2);
    }
  }

  /** The outcome of let x[i] = r; is that of its value part, after the
      element's address is computed. */
  lemma IndexedOutcome(toks: seq<Token>, start: nat, x: string, i: Expr, q: nat, env: Env,
                       kind: ST.SymbolKind, index: nat, ok: bool, c0: seq<Command>, code: seq<Command>, n: nat)
    requires IsKeywordAt(toks, start, K.Let) && start <= q
    requires VarKind(env, x) == Some(kind) && index == ST.GetIndex(Lookup(env, x)) && ExprResolved(env, i)
    requires ok <==> ParseLetValue(toks, start, x, Some(i), q).Some?
                     && ExprResolved(env, ParseLetValue(toks, start, x, Some(i), q).value.tree.rhs)
    requires ok ==> code == c0 + [Push(VarSegment(kind), index)] + ExprCode(env, i) + [Add, Pop(Temp, 0)]
                            + ExprCode(env, ParseLetValue(toks, start, x, Some(i), q).value.tree.rhs)
                            + [Push(Temp, 0), Pop(Pointer, 1), Pop(That, 0)]
    ensures ok <==> ParseLetValue(toks, start, x, Some(i), q).Some?
                    && StmtResolved(env, ParseLetValue(toks, start, x, Some(i), q).value.tree)
    ensures ok ==> code == c0 + StmtCode(env, ParseLetValue(toks, start, x, Some(i), q).value.tree, n)
  {
    if ParseLetValue(toks, start, x, Some(i), q).Some? {
      var r := ParseLetValue(toks, start, x, Some(i), q).value.tree.rhs;
      assert ParseLetValue(toks, start, x, Some(i), q).value.tree == LetIndexedStmt(x, i, r);
      if ok {
        assert PushVar(env, x) == [Push(VarSegment(kind), index)];
        AppendAssoc6(c0, PushVar(env, x), ExprCode(env, i), [Add, Pop(Temp, 0)],
                     ExprCode(env, r), [Push(Temp, 0), Pop(Pointer, 1), Pop(That, 0)]);
      }
    }
  }

  /** A condition that fails or does not resolve fails the while statement. */
  lemma WhileConditionFails(toks: seq<Token>, p: nat, env: Env)
    requires IsKeywordAt(toks, p, K.While)
    requires !(ParseCondition(toks, Following(toks, p)).Some? && ExprResolved(env, ParseCondition(toks, Following(toks, p)).value.tree))
    ensures !(ParseWhile(toks, p).Some? && StmtResolved(env, ParseWhile(toks, p).value.tree))
  {
    if ParseCondition(toks, Following(toks, p)).Some? {
      WhileIsBody(toks, p);
    }
  }

  lemma WhileIsBody(toks: seq<Token>, p: nat)
    requires IsKeywordAt(toks, p, K.While) && ParseCondition(toks, Following(toks, p)).Some?
    ensures ParseWhile(toks, p)
         == match ParseBlock(toks, ParseCondition(toks, Following(toks, p)).value.next)
            case None => None
            case Some(b) => Some(Parsed(WhileStmt(ParseCondition(toks, Following(toks, p)).value.tree, b.tree), b.next))
  {
  }

  /** A condition that fails or does not resolve fails the if statement. */
  lemma IfConditionFails(toks: seq<Token>, p: nat, env: Env)
    requires IsKeywordAt(toks, p, K.If)
    requires !(ParseCondition(toks, Following(toks, p)).Some? && ExprResolved(env, ParseCondition(toks, Following(toks, p)).value.tree))
    ensures !(ParseIf(toks, p).Some? && StmtResolved(env, ParseIf(toks, p).value.tree))
  {
    var c := ParseCondition(toks, Following(toks, p));
    if c.Some? && ParseBranches(toks, c.value.next).Some? {
      IfIsBranches(toks, p);
      IfOfCode(env, c.value.tree, ParseBranches(toks, c.value.next).value.tree, 0);
    }
  }

  lemma IfIsBranches(toks: seq<Token>, p: nat)
    requires IsKeywordAt(toks, p, K.If) && ParseCondition(toks, Following(toks, p)).Some?
    ensures ParseIf(toks, p)
         == match ParseBranches(toks, ParseCondition(toks, Following(toks, p)).value.next)
            case None => None
            case Some(b) => Some(Parsed(IfOf(ParseCondition(toks, Following(toks, p)).value.tree, b.tree), b.next))
  {
  }

  /** The outcome of an if statement, once its condition is compiled, is that
      of its branches. */
  lemma IfOutcome(toks: seq<Token>, p: nat, env: Env, n: nat, ok: bool, q: nat, nl: nat, c0: seq<Command>, code: seq<Command>)
    requires IsKeywordAt(toks, p, K.If) && ParseCondition(toks, Following(toks, p)).Some?
    requires ExprResolved(env, ParseCondition(toks, Following(toks, p)).value.tree)
    requires ok <==> ParseBranches(toks, ParseCondition(toks, Following(toks, p)).value.next).Some?
                     && BranchesResolved(env, ParseBranches(toks, ParseCondition(toks, Following(toks, p)).value.next).value.tree)
    requires ok ==> q == ParseBranches(toks, ParseCondition(toks, Following(toks, p)).value.next).value.next
                    && nl == n + BranchesUsed(ParseBranches(toks, ParseCondition(toks, Following(toks, p)).value.next).value.tree)
                    && code == c0 + ExprCode(env, ParseCondition(toks, Following(toks, p)).value.tree)
                               + BranchesCode(env, ParseBranches(toks, ParseCondition(toks, Following(toks, p)).value.next).value.tree, n)
    ensures ok <==> ParseIf(toks, p).Some? && StmtResolved(env, ParseIf(toks, p).value.tree)
    ensures ok ==> q == ParseIf(toks, p).value.next && nl == n + Used(ParseIf(toks, p).value.tree)
                   && code == c0 + StmtCode(env, ParseIf(toks, p).value.tree, n)
  {
    var c := ParseCondition(toks, Following(toks, p)).value;
    IfIsBranches(toks, p);
    if ParseBranches(toks, c.next).Some? {
      var b := ParseBranches(toks, c.next).value;
      IfOfCode(env, c.tree, b.tree, n);
      AppendAssoc3(c0, ExprCode(env, c.tree), BranchesCode(env, b.tree, n));
    }
  }

  /** Without else, nothing is consumed and only the first label is placed. */
  lemma NoElse(toks: seq<Token>, p: nat, env: Env, skip: string, n: nat)
    requires !IsKeywordAt(toks, p, K.Else)
    ensures ParseElseOpt(toks, p) == Some(Parsed(None, p))
    ensures ElseCode(env, None, skip, n) == [Label(skip)] && ElseUsed(None) == 0 && ElseResolved(env, None)
  {
  }

  /** The outcome of an else part is that of its block, framed by the two labels. */
  lemma ElseBlockOutcome(toks: seq<Token>, p: nat, env: Env, skip: string, n0: nat, ok: bool,
                         q: nat, n: nat, c0: seq<Command>, code: seq<Command>)
    requires IsKeywordAt(toks, p, K.Else)
    requires ok <==> ParseBlock(toks, Following(toks, p)).Some?
                     && StmtsResolved(env, ParseBlock(toks, Following(toks, p)).value.tree)
    requires ok ==> q == ParseBlock(toks, Following(toks, p)).value.next
                    && n == n0 + 1 + UsedAll(ParseBlock(toks, Following(toks, p)).value.tree)
                    && code == c0 + [Goto(LabelName(n0)), Label(skip)]
                               + StmtsCode(env, ParseBlock(toks, Following(toks, p)).value.tree, n0 + 1)
                               + [Label(LabelName(n0))]
    ensures ok <==> ParseElseOpt(toks, p).Some? && ElseResolved(env, ParseElseOpt(toks, p).value.tree)
    ensures ok ==> q == ParseElseOpt(toks, p).value.next
                   && n == n0 + ElseUsed(ParseElseOpt(toks, p).value.tree)
                   && code == c0 + ElseCode(env, ParseElseOpt(toks, p).value.tree, skip, n0)
  {
    if ok {
      var b := ParseBlock(toks, Following(toks, p)).value.tree;
      AppendAssoc4(c0, [Goto(LabelName(n0)), Label(skip)], StmtsCode(env, b, n0 + 1), [Label(LabelName(n0))]);
    }
  }

  /** When the first block of an if fails, so do its branches. */
  lemma ThenFails(toks: seq<Token>, p: nat, env: Env)
    requires !(ParseBlock(toks, p).Some? && StmtsResolved(env, ParseBlock(toks, p).value.tree))
    ensures !(ParseBranches(toks, p).Some? && BranchesResolved(env, ParseBranches(toks, p).value.tree))
  {
  }

  /** The outcome of the branches of an if, once its first block is compiled,
      is that of the else part. */
  lemma BranchesOutcome(toks: seq<Token>, p: nat, env: Env, n: nat, ok: bool,
                        q: nat, nl: nat, c0: seq<Command>, code: seq<Command>)
    requires ParseBlock(toks, p).Some? && StmtsResolved(env, ParseBlock(toks, p).value.tree)
    requires ok <==> ParseElseOpt(toks, ParseBlock(toks, p).value.next).Some?
                     && ElseResolved(env, ParseElseOpt(toks, ParseBlock(toks, p).value.next).value.tree)
    requires ok ==> q == ParseElseOpt(toks, ParseBlock(toks, p).value.next).value.next
                    && nl == n + 1 + UsedAll(ParseBlock(toks, p).value.tree)
                             + ElseUsed(ParseElseOpt(toks, ParseBlock(toks, p).value.next).value.tree)
                    && code == c0 + [Not, IfGoto(LabelName(n))] + StmtsCode(env, ParseBlock(toks, p).value.tree, n + 1)
                               + ElseCode(env, ParseElseOpt(toks, ParseBlock(toks, p).value.next).value.tree, LabelName(n),
                                          n + 1 + UsedAll(ParseBlock(toks, p).value.tree))
    ensures ok <==> ParseBranches(toks, p).Some? && BranchesResolved(env, ParseBranches(toks, p).value.tree)
    ensures ok ==> q == ParseBranches(toks, p).value.next
                   && nl == n + BranchesUsed(ParseBranches(toks, p).value.tree)
                   && code == c0 + BranchesCode(env, ParseBranches(toks, p).value.tree, n)
  {
    var t := ParseBlock(toks, p).value;
    if ParseElseOpt(toks, t.next).Some? {
      var e := ParseElseOpt(toks, t.next).value;
      BranchesIsElse(toks, p);
      if ok {
        AppendAssoc4(c0, [Not, IfGoto(LabelName(n))], StmtsCode(env, t.tree, n + 1),
                     ElseCode(env, e.tree, LabelName(n), n + 1 + UsedAll(t.tree)));
      }
    } else {
      BranchesNoElse(toks, p);
    }
  }

  lemma BranchesIsElse(toks: seq<Token>, p: nat)
    requires ParseBlock(toks, p).Some? && ParseElseOpt(toks, ParseBlock(toks, p).value.next).Some?
    ensures ParseBranches(toks, p)
         == Some(Parsed(Branches(ParseBlock(toks, p).value.tree, ParseElseOpt(toks, ParseBlock(toks, p).value.next).value.tree),
                        ParseElseOpt(toks, ParseBlock(toks, p).value.next).value.next))
  {
  }

  lemma BranchesNoElse(toks: seq<Token>, p: nat)
    requires ParseBlock(toks, p).Some? && ParseElseOpt(toks, ParseBlock(toks, p).value.next).None?
    ensures ParseBranches(toks, p).None?
  {
  }

  /** The code, label count and resolution of an if statement, split after
      its condition. */
  lemma IfOfCode(env: Env, c: Expr, b: Branches, n: nat)
    ensures StmtCode(env, IfOf(c, b), n) == ExprCode(env, c) + BranchesCode(env, b, n)
    ensures Used(IfOf(c, b)) == BranchesUsed(b)
    ensures StmtResolved(env, IfOf(c, b)) <==> ExprResolved(env, c) && BranchesResolved(env, b)
  {
    var t, m := b.thenPart, n + 1 + UsedAll(b.thenPart);
    if b.elsePart.Some? {
      AppendAssoc4(ExprCode(env, c) + [Not, IfGoto(LabelName(n))] + StmtsCode(env, t, n + 1),
                   [Goto(LabelName(m)), Label(LabelName(n))],
                   StmtsCode(env, b.elsePart.value, m + 1), [Label(LabelName(m))]);
    }
    AppendAssoc4(ExprCode(env, c), [Not, IfGoto(LabelName(n))], StmtsCode(env, t, n + 1),
                 ElseCode(env, b.elsePart, LabelName(n), m));
  }

  /** The code of a call, assembled from what the engine writes for it: the
      receiver, the arguments, then the call with the argument count. */
  lemma CallOutcome(code: seq<Command>, c0: seq<Command>, env: Env, q: Option<string>, name: string,
                    args: seq<Expr>, functionName: string, isMethodCall: bool)
    requires functionName == CallName(env, SubroutineCall(q, name, []))
    requires isMethodCall == IsMethodCall(env, SubroutineCall(q, name, []))
    requires code == c0 + ReceiverCode(env, SubroutineCall(q, name, [])) + ArgsCode(env, args)
                    + [Call(functionName, |args| + if isMethodCall then 1 else 0)]
    ensures code == c0 + CallCode(env, SubroutineCall(q, name, args))
  {
    var c := SubroutineCall(q, name, args);
    assert ReceiverCode(env, c) == ReceiverCode(env, SubroutineCall(q, name, []));
    AppendAssoc4(c0, ReceiverCode(env, c), ArgsCode(env, args), [Call(CallName(env, c), |args| + if IsMethodCall(env, c) then 1 else 0)]);
  }

  /** An unqualified call is a method call on `this` of the current class. */
  lemma PlainReceiver(env: Env, x: string)
    ensures CallName(env, SubroutineCall(None, x, [])) == env.className + "." + x
    ensures IsMethodCall(env, SubroutineCall(None, x, []))
    ensures ReceiverCode(env, SubroutineCall(None, x, [])) == [Push(Pointer, 0)]
  {
  }

  /** What ParseCall reads for receiver.name: the argument list after the name. */
  lemma QualifiedCallIsArgs(toks: seq<Token>, p: nat)
    requires KindIs(toks, p, IdentifierToken) && FirstChar(toks, Following(toks, p)) == Some('.')
    requires IsSymbolAt(toks, Following(toks, p), '.') && KindIs(toks, Following(toks, Following(toks, p)), IdentifierToken)
    ensures JackParser.ParseCall(toks, p)
         == ParseArgs(toks, p, Some(toks[p].text), toks[Following(toks, Following(toks, p))].text,
                      Following(toks, Following(toks, Following(toks, p))))
  {
  }

  /** What ParseCall reads for a bare name: the argument list after it. */
  lemma PlainCallIsArgs(toks: seq<Token>, p: nat)
    requires KindIs(toks, p, IdentifierToken) && FirstChar(toks, Following(toks, p)).Some?
    requires FirstChar(toks, Following(toks, p)).value != '.'
    ensures JackParser.ParseCall(toks, p) == ParseArgs(toks, p, None, toks[p].text, Following(toks, p))
  {
  }

  lemma CallFails(toks: seq<Token>, p: nat)
    requires !KindIs(toks, p, IdentifierToken) || FirstChar(toks, Following(toks, p)).None?
          || (FirstChar(toks, Following(toks, p)) == Some('.')
              && (!IsSymbolAt(toks, Following(toks, p), '.') || !KindIs(toks, Following(toks, Following(toks, p)), IdentifierToken)))
    ensures JackParser.ParseCall(toks, p).None?
  {
  }

  lemma DecIsHeading(toks: seq<Token>, p: nat)
    requires SubroutineKindAt(toks, p).Some?
    ensures ParseSubroutineDec(toks, p) == ParseSubroutineHeading(toks, Following(toks, p), SubroutineKindAt(toks, p).value)
  {
  }

  /** What ParseClass reads once 'class' and the class name are found. */
  lemma ClassIsBody(toks: seq<Token>, p: nat)
    requires IsKeywordAt(toks, p, K.Class) && KindIs(toks, Following(toks, p), IdentifierToken)
    ensures ParseClass(toks, p) == ParseClassBody(toks, Following(toks, Following(toks, p)), toks[Following(toks, p)].text)
  {
  }

  /** compileClass's outcome is that of its body, read after the class name. */
  lemma ClassOutcome(toks: seq<Token>, p0: nat, q: nat, name: string, ok: bool, pos: nat,
                     n0: nat, n: nat, c0: seq<Command>, code: seq<Command>)
    requires IsKeywordAt(toks, p0, K.Class) && KindIs(toks, Following(toks, p0), IdentifierToken)
    requires q == Following(toks, Following(toks, p0)) && name == toks[Following(toks, p0)].text
    requires ok <==> ParseClassBody(toks, q, name).Some? && ClassResolved(ParseClassBody(toks, q, name).value.tree)
    requires ok ==> pos == ParseClassBody(toks, q, name).value.next
                    && n == n0 + UsedBySubs(ParseClassBody(toks, q, name).value.tree.subs)
                    && code == c0 + SubsCode(name, ClassHistory(ParseClassBody(toks, q, name).value.tree.vars),
                                             ParseClassBody(toks, q, name).value.tree.subs, n0)
    ensures ok <==> ParseClass(toks, p0).Some? && ClassResolved(ParseClass(toks, p0).value.tree)
    ensures ok ==> pos == ParseClass(toks, p0).value.next
                   && n == n0 + UsedBySubs(ParseClass(toks, p0).value.tree.subs)
                   && code == c0 + SubsCode(ParseClass(toks, p0).value.tree.name, ClassHistory(ParseClass(toks, p0).value.tree.vars),
                                            ParseClass(toks, p0).value.tree.subs, n0)
  {
    ClassIsBody(toks, p0);
  }

  lemma ClassFails(toks: seq<Token>, p: nat)
    requires !IsKeywordAt(toks, p, K.Class) || !KindIs(toks, Following(toks, p), IdentifierToken)
    ensures ParseClass(toks, p).None?
  {
  }

  /** What ParseSubroutineHeading reads once the return type and the name are found. */
  lemma HeadingIsRest(toks: seq<Token>, p: nat, kind: SubroutineKind)
    requires ReturnTypeAt(toks, p) && KindIs(toks, Following(toks, p), IdentifierToken)
    ensures ParseSubroutineHeading(toks, p, kind)
         == ParseSubroutineRest(toks, Following(toks, Following(toks, p)), kind, toks[Following(toks, p)].text)
  {
  }

  lemma HeadingFails(toks: seq<Token>, p: nat, kind: SubroutineKind)
    requires !ReturnTypeAt(toks, p) || !KindIs(toks, Following(toks, p), IdentifierToken)
    ensures ParseSubroutineHeading(toks, p, kind).None?
  {
  }

  /** What ParseSubroutineRest reads once the parameter list and the closing
      parenthesis are found: the body. */
  lemma SubroutineRestIsBody(toks: seq<Token>, p: nat, kind: SubroutineKind, name: string)
    requires IsSymbolAt(toks, p, '(') && ParseParameterList(toks, Following(toks, p)).Some?
    requires IsSymbolAt(toks, ParseParameterList(toks, Following(toks, p)).value.next, ')')
    ensures ParseSubroutineRest(toks, p, kind, name)
         == ParseSubroutineBody(toks, Following(toks, ParseParameterList(toks, Following(toks, p)).value.next), kind, name,
                                ParseParameterList(toks, Following(toks, p)).value.tree)
  {
  }

  lemma SubroutineRestFails(toks: seq<Token>, p: nat, kind: SubroutineKind, name: string)
    requires !IsSymbolAt(toks, p, '(')
          || ParseParameterList(toks, Following(toks, p)).None?
          || !IsSymbolAt(toks, ParseParameterList(toks, Following(toks, p)).value.next, ')')
    ensures ParseSubroutineRest(toks, p, kind, name).None?
  {
  }

  /** A subroutine met while parsing a class whose subroutines all resolve resolves too. */
  lemma ResolvedNextSub(toks: seq<Token>, p: nat, ss: seq<SubroutineDec>, className: string, cls: seq<ST.Entry>)
    requires SubroutineKindAt(toks, p).Some? && ParseSubroutineDec(toks, p).Some?
    requires ParseSubroutineDecs(toks, p, ss).Some?
    requires SubsResolved(className, cls, ParseSubroutineDecs(toks, p, ss).value.tree)
    ensures SubsResolved(className, cls, ss + [ParseSubroutineDec(toks, p).value.tree])
  {
    var d := ParseSubroutineDec(toks, p).value;
    var all := ParseSubroutineDecs(toks, p, ss).value.tree;
    assert ParseSubroutineDecs(toks, p, ss) == ParseSubroutineDecs(toks, d.next, ss + [d.tree]);
    SubroutineDecsExtend(toks, d.next, ss + [d.tree]);
    SubsResolvedPrefix(className, cls, all, |ss| + 1);
  }

  /** The insertion of one declared name: the class-name overload of
      insertSymbol for a class type, the other one otherwise. */
  method InsertName(table: ST.SymbolTable, name: string, ghost ty: JackType,
                    symbolType: ST.SymbolType, typeClass: Option<string>, kind: ST.SymbolKind)
    requires table.Valid() && symbolType == SymbolTypeOf(ty) && typeClass == ClassNameOf(ty)
    modifies table
    ensures table.Valid() && table.history == old(table.history) + [Declared(old(table.history), name, ty, kind)]
  {
    if typeClass.Some? {
      table.InsertClassSymbol(name, typeClass.value, kind);
    } else {
      var _ := table.InsertSymbol(name, symbolType, kind);
    }
  }

  /** The insertions of all the names of one declaration, in order. */
  method InsertNames(table: ST.SymbolTable, names: seq<string>, ghost ty: JackType,
                     symbolType: ST.SymbolType, typeClass: Option<string>, kind: ST.SymbolKind)
    requires table.Valid() && symbolType == SymbolTypeOf(ty) && typeClass == ClassNameOf(ty)
    modifies table
    ensures table.Valid() && table.history == Declare(old(table.history), names, ty, kind)
  {
    var i := 0;
    while i < |names|
      invariant 0 <= i <= |names| && table.Valid()
      invariant table.history == Declare(old(table.history), names[..i], ty, kind)
    {
      DeclareStep(old(table.history), names, i, ty, kind);
      InsertName(table, names[i], ty, symbolType, typeClass, kind);
      i := i + 1;
    }
    assert names[..|names|] == names;
  }

  /** The writer operation that writes the line of c. */
  method WriteLine(w: W.Writer, c: Command)
    modifies w
    ensures w.lines == old(w.lines) + [Line(c)]
  {
    match c {
      case Push(s, i) => w.WritePush(s, i);
      case Pop(s, i) => w.WritePop(s, i);
      case Call(f, n) => w.WriteCall(f, n);
      case Function(f, n) => w.WriteFunction(f, n);
      case Label(l) => w.WriteLabel(l);
      case Goto(l) => w.WriteGoto(l);
      case IfGoto(l) => w.WriteIfGoto(l);
      case _ => w.WriteArithmetic(c);
    }
  }

  class Engine {
    /** The tokens of the input file, in order; `pos` is the current one. */
    const toks: seq<Token>
    var pos: nat
    const out: W.Writer
    var classTable: ST.SymbolTable
    var subTable: ST.SymbolTable
    var className: string
    var nextLabelNumber: nat
    /** The commands written so far. */
    ghost var code: seq<Command>

    /** The writer holds the lines of the commands written so far, and the
        current token exists unless there are none. */
    ghost predicate Written()
      reads this, out
    {
      && out.lines == Render(code)
      && (pos < |toks| || (|toks| == 0 && pos == 0))
    }

    ghost predicate Valid()
      reads this, out, classTable, subTable
    {
      && Written()
      && classTable.Valid() && subTable.Valid() && classTable != subTable
    }

    /** The class being compiled and what the engine reads of its two tables. */
    function Env(): Env
      reads this`className, this`subTable, this`classTable, subTable, classTable
    {
      CodeGen.Env(className, Scope(subTable.hashMap, subTable.classNameHashMap),
                  Scope(classTable.hashMap, classTable.classNameHashMap))
    }

    /** Reads the first token, if there is one; the label counter starts at 0. */
    constructor (tokens: seq<Token>)
      ensures Valid() && fresh(out) && fresh(classTable) && fresh(subTable)
      ensures toks == tokens && pos == 0 && nextLabelNumber == 0 && code == []
      ensures classTable.history == [] && subTable.history == []
    {
      toks := tokens;
      pos := 0;
      out := new W.Writer();
      classTable := new ST.SymbolTable();
      subTable := new ST.SymbolTable();
      className := "";
      nextLabelNumber := 0;
      code := [];
    }

    /** Writes one command. */
    method Emit(c: Command)
      requires Written()
      modifies out, this`code
      ensures Written() && code == old(code) + [c]
    {
      WriteLine(out, c);
      RenderAppend(code, [c]);
      code := code + [c];
    }

    /** Writes the commands of cs in order. */
    method EmitAll(cs: seq<Command>)
      requires Written()
      modifies out, this`code
      ensures Written() && code == old(code) + cs
    {
      var i := 0;
      while i < |cs|
        invariant 0 <= i <= |cs| && Written()
        invariant code == old(code) + cs[..i]
      {
        Emit(cs[i]);
        assert cs[..i + 1] == cs[..i] + [cs[i]];
        i := i + 1;
      }
      assert cs[..|cs|] == cs;
    }

    /** Moves to the next token when there is one. */
    method Step()
      requires Written()
      modifies this`pos
      ensures Written() && pos == Following(toks, old(pos))
    {
      if pos + 1 < |toks| {
        pos := pos + 1;
      }
    }

    /** generateLabel: the name of the next label number, which it draws. */
    method GenerateLabel() returns (name: string)
      modifies this`nextLabelNumber
      ensures nextLabelNumber == old(nextLabelNumber) + 1
      ensures name == LabelName(old(nextLabelNumber))
    {
      nextLabelNumber := nextLabelNumber + 1;
      name := "L" + NatToString(nextLabelNumber - 1);
    }

    method ConsumeKeyword(k: K.Keyword) returns (ok: bool)
      requires Written()
      modifies this`pos
      ensures Written()
      ensures ok <==> IsKeywordAt(toks, old(pos), k)
      ensures ok ==> pos == Following(toks, old(pos))
    {
      ok := IsKeywordAt(toks, pos, k);
      if ok {
        Step();
      }
    }

    method ConsumeSymbol(c: char) returns (ok: bool)
      requires Written()
      modifies this`pos
      ensures Written()
      ensures ok <==> IsSymbolAt(toks, old(pos), c)
      ensures ok ==> pos == Following(toks, old(pos))
    {
      ok := IsSymbolAt(toks, pos, c);
      if ok {
        Step();
      }
    }

    /** consumeSymbolWeak: steps over the symbol if it is there, and never fails. */
    method ConsumeSymbolWeak(c: char)
      requires Written()
      modifies this`pos
      ensures Written()
      ensures pos == if IsSymbolAt(toks, old(pos), c) then Following(toks, old(pos)) else old(pos)
    {
      if IsSymbolAt(toks, pos, c) {
        Step();
      }
    }

    method ConsumeIdentifier() returns (ok: bool, name: string)
      requires Written()
      modifies this`pos
      ensures Written()
      ensures ok <==> KindIs(toks, old(pos), IdentifierToken)
      ensures ok ==> name == toks[old(pos)].text && pos == Following(toks, old(pos))
    {
      ok := KindIs(toks, pos, IdentifierToken);
      name := "";
      if ok {
        name := toks[pos].text;
        Step();
      }
    }

    // Expressions

    /** The code of op, one command per operator. */
    method EmitOp(op: char)
      requires Written() && IsOperator(op)
      modifies out, this`code
      ensures Written() && code == old(code) + OpCode(op)
    {
      if op == '+' { Emit(Add); }
      else if op == '-' { Emit(Sub); }
      else if op == '*' { Emit(Mult); }
      else if op == '/' { Emit(Div); }
      else if op == '&' { Emit(And); }
      else if op == '|' { Emit(Or); }
      else if op == '<' { Emit(Lt); }
      else if op == '>' { Emit(Gt); }
      else { Emit(Eq); }
    }

    /** A string constant: String.new with its length, then one appendChar per
        UTF-16 code unit of the Java string. */
    method WriteString(str: string)
      requires Written()
      modifies out, this`code
      ensures Written() && code == old(code) + StringCode(str)
    {
      var units := Utf16(str);
      Emit(Push(Constant, |units|));
      Emit(Call("String.new", 1));
      var i := 0;
      while i < |units|
        invariant 0 <= i <= |units| && Written()
        invariant code == old(code) + [Push(Constant, |units|), Call("String.new", 1)] + CharsCode(units[..i])
      {
        Emit(Push(Constant, units[i]));
        Emit(Call("String.appendChar", 2));
        assert units[..i + 1][..i] == units[..i];
        i := i + 1;
      }
      assert units[..|units|] == units;
    }

    /** getVal in the subroutine table, then in the class table. */
    method LookupName(x: string) returns (v: nat)
      ensures v == Lookup(Env(), x)
    {
      v := subTable.GetVal(x);
      if v == ST.NotFound {
        v := classTable.GetVal(x);
      }
    }

    /** compileTerm. */
    method CompileTerm() returns (ok: bool)
      requires Written()
      modifies this`pos, this`code, out
      ensures Written()
      ensures ok <==> ParseTerm(toks, old(pos)).Some? && TermResolved(Env(), ParseTerm(toks, old(pos)).value.tree)
      ensures ok ==> pos == ParseTerm(toks, old(pos)).value.next
                     && code == old(code) + TermCode(Env(), ParseTerm(toks, old(pos)).value.tree)
      decreases |toks| - pos, 3
    {
      if KindIs(toks, pos, KeywordToken) {
        var k := KeywordAt(toks, pos);
        ok := k.Some? && IsKeywordConstant(k.value);
        if ok {
          Step();
          EmitKeywordConstant(k.value);
        }
      } else if KindIs(toks, pos, IntConst) {
        var v := IntValue(toks[pos].text);
        ok := v.Some?;
        if ok {
          Step();
          Emit(Push(Constant, v.value));
        }
      } else if KindIs(toks, pos, StringConst) {
        var str := toks[pos].text;
        Step();
        WriteString(str);
        ok := true;
      } else if KindIs(toks, pos, SymbolToken) {
        ok := CompileSymbolTerm();
      } else if KindIs(toks, pos, IdentifierToken) {
        ok := CompileIdentifierTerm();
      } else {
        ok := false;
      }
    }

    /** The code of true, false, null and this. */
    method EmitKeywordConstant(k: K.Keyword)
      requires Written() && IsKeywordConstant(k)
      modifies out, this`code
      ensures Written() && code == old(code) + KeywordConstCode(k)
    {
      if k == K.True {
        Emit(Push(Constant, 1));
        Emit(Neg);
      } else if k == K.This {
        Emit(Push(Pointer, 0));
      } else {
        Emit(Push(Constant, 0));
      }
    }

    /** A term that starts with a symbol: ( expression ) or a unary operator and its term. */
    method CompileSymbolTerm() returns (ok: bool)
      requires Written() && KindIs(toks, pos, SymbolToken)
      modifies this`pos, this`code, out
      ensures Written()
      ensures ok <==> ParseSymbolTerm(toks, old(pos)).Some? && TermResolved(Env(), ParseSymbolTerm(toks, old(pos)).value.tree)
      ensures ok ==> pos == ParseSymbolTerm(toks, old(pos)).value.next
                     && code == old(code) + TermCode(Env(), ParseSymbolTerm(toks, old(pos)).value.tree)
      decreases |toks| - pos, 2
    {
      var p := pos;
      ghost var env := Env();
      if FirstChar(toks, pos) == Some('(') {
        Step();
        if pos == p {
          // the source recurses on the same '(' without end
          return false;
        }
        ok := CompileExpression();
        if !ok {
          return;
        }
        ok := ConsumeSymbol(')');
      } else if UnaryOperatorAt(toks, pos) {
        var op := FirstChar(toks, pos).value;
        Step();
        if pos == p {
          return false;
        }
        ok := CompileTerm();
        if !ok {
          return;
        }
        ghost var u := ParseTerm(toks, p + 1).value.tree;
        ghost var c1 := code;
        if op == '-' { Emit(Neg); } else { Emit(Not); }
        AppendAssoc3(old(code), TermCode(env, u), UnaryCode(op));
      } else {
        ok := false;
      }
    }

    /** Array access after its base is pushed: add the index, point `that` at the element, read it. */
    method EmitArrayRead()
      requires Written()
      modifies out, this`code
      ensures Written() && code == old(code) + [Add, Pop(Pointer, 1), Push(That, 0)]
    {
      Emit(Add);
      Emit(Pop(Pointer, 1));
      Emit(Push(That, 0));
    }

    /** A term that starts with an identifier, decided by the token after it:
        '[' an array element, '.' or '(' a call, another symbol a variable,
        and anything else leaves the identifier behind and emits nothing. */
    method CompileIdentifierTerm() returns (ok: bool)
      requires Written() && KindIs(toks, pos, IdentifierToken)
      modifies this`pos, this`code, out
      ensures Written()
      ensures ok <==> ParseIdentifierTerm(toks, old(pos)).Some? && TermResolved(Env(), ParseIdentifierTerm(toks, old(pos)).value.tree)
      ensures ok ==> pos == ParseIdentifierTerm(toks, old(pos)).value.next
                     && code == old(code) + TermCode(Env(), ParseIdentifierTerm(toks, old(pos)).value.tree)
      decreases |toks| - pos, 2
    {
      ghost var env := Env();
      var x := toks[pos].text;
      if !(pos + 1 < |toks| && toks[pos + 1].kind == SymbolToken) {
        Step();
        assert code == code + [];
        return true;
      }
      var c := FirstChar(toks, pos + 1);
      if c.None? {
        return false;
      }
      if c.value == '.' || c.value == '(' {
        ok := CompileSubroutineCall();
        return;
      }
      ok := CompileVariableTerm(c.value);
    }

    /** An identifier followed by a symbol other than '.' and '(': the
        variable is looked up first; '[' makes it an array access. */
    method CompileVariableTerm(next: char) returns (ok: bool)
      requires Written() && KindIs(toks, pos, IdentifierToken)
      requires pos + 1 < |toks| && toks[pos + 1].kind == SymbolToken && FirstChar(toks, pos + 1) == Some(next)
      requires next != '.' && next != '('
      modifies this`pos, this`code, out
      ensures Written()
      ensures ok <==> ParseIdentifierTerm(toks, old(pos)).Some? && TermResolved(Env(), ParseIdentifierTerm(toks, old(pos)).value.tree)
      ensures ok ==> pos == ParseIdentifierTerm(toks, old(pos)).value.next
                     && code == old(code) + TermCode(Env(), ParseIdentifierTerm(toks, old(pos)).value.tree)
      decreases |toks| - pos, 1
    {
      ghost var env := Env();
      var x := toks[pos].text;
      Step();
      var v := LookupName(x);
      var kind := ST.GetKind(v);
      if v == ST.NotFound || kind.None? {
        return false;
      }
      if next == '[' {
        Emit(Push(ArrayBaseSegment(kind.value), ST.GetIndex(v)));
        ok := CompileIndex(old(pos));
        if ok {
          ghost var i := ParseExpr(toks, Following(toks, old(pos) + 1)).value.tree;
          AppendAssoc4(old(code), PushArrayBase(env, x), ExprCode(env, i), [Add, Pop(Pointer, 1), Push(That, 0)]);
        }
      } else {
        Emit(Push(VarSegment(kind.value), ST.GetIndex(v)));
        ok := true;
      }
    }

    /** '[' expression ']' after an array's base is pushed, then the element read. */
    method CompileIndex(ghost start: nat) returns (ok: bool)
      requires Written() && KindIs(toks, pos, SymbolToken) && start < pos
      modifies this`pos, this`code, out
      ensures Written()
      ensures ok <==> ParseExpr(toks, Following(toks, old(pos))).Some?
                      && IsSymbolAt(toks, ParseExpr(toks, Following(toks, old(pos))).value.next, ']')
                      && ExprResolved(Env(), ParseExpr(toks, Following(toks, old(pos))).value.tree)
      ensures ok ==> pos == Following(toks, ParseExpr(toks, Following(toks, old(pos))).value.next)
                     && code == old(code) + ExprCode(Env(), ParseExpr(toks, Following(toks, old(pos))).value.tree)
                                          + [Add, Pop(Pointer, 1), Push(That, 0)]
      decreases |toks| - start, 0
    {
      Step();
      ok := CompileExpression();
      if !ok {
        return;
      }
      ok := ConsumeSymbol(']');
      if !ok {
        return;
      }
      EmitArrayRead();
    }

    /** compileExpression: a term, then operator and term while the current token is an operator. */
    method CompileExpression() returns (ok: bool)
      requires Written()
      modifies this`pos, this`code, out
      ensures Written()
      ensures ok <==> ParseExpr(toks, old(pos)).Some? && ExprResolved(Env(), ParseExpr(toks, old(pos)).value.tree)
      ensures ok ==> pos == ParseExpr(toks, old(pos)).value.next
                     && code == old(code) + ExprCode(Env(), ParseExpr(toks, old(pos)).value.tree)
      decreases |toks| - pos, 5
    {
      ghost var p0, c0, env := pos, code, Env();
      ok := CompileTerm();
      ghost var first := ParseTerm(toks, p0);
      if !ok {
        if first.Some? && ParseExpr(toks, p0).Some? && ExprResolved(env, ParseExpr(toks, p0).value.tree) {
          ExprRestKeepsResolved(env, toks, first.value.next, Single(first.value.tree));
        }
        return;
      }
      ghost var acc := Single(first.value.tree);
      while OperatorAt(toks, pos)
        invariant Written() && Env() == env
        invariant p0 <= pos < |toks|
        invariant ParseExpr(toks, p0) == ParseExprRest(toks, pos, acc)
        invariant ExprResolved(env, acc) && code == c0 + ExprCode(env, acc)
        decreases |toks| - pos
      {
        ghost var q := pos;
        var op := FirstChar(toks, pos).value;
        Step();
        ok := CompileTerm();
        ghost var t := ParseTerm(toks, Following(toks, q));
        if !ok {
          if t.Some? && ParseExpr(toks, p0).Some? && ExprResolved(env, ParseExpr(toks, p0).value.tree) {
            ExprRestKeepsResolved(env, toks, t.value.next, Binary(acc, op, t.value.tree));
          }
          return;
        }
        EmitOp(op);
        AppendAssoc4(c0, ExprCode(env, acc), TermCode(env, t.value.tree), OpCode(op));
        acc := Binary(acc, op, t.value.tree);
      }
      ok := true;
    }

    /** compileExpressionList: nothing before ')', otherwise expressions
        separated by ','; n is how many. */
    method CompileExpressionList() returns (ok: bool, n: nat)
      requires Written()
      modifies this`pos, this`code, out
      ensures Written()
      ensures ok <==> ParseExprList(toks, old(pos)).Some? && ArgsResolved(Env(), ParseExprList(toks, old(pos)).value.tree)
      ensures ok ==> pos == ParseExprList(toks, old(pos)).value.next
                     && n == |ParseExprList(toks, old(pos)).value.tree|
                     && code == old(code) + ArgsCode(Env(), ParseExprList(toks, old(pos)).value.tree)
      decreases |toks| - pos, 7
    {
      if IsSymbolAt(toks, pos, ')') {
        assert code == code + [];
        return true, 0;
      }
      ghost var p0, c0, env := pos, code, Env();
      ok := CompileExpression();
      if !ok {
        ExprListFirstFails(toks, p0, env);
        return false, 0;
      }
      ghost var first := ParseExpr(toks, p0).value;
      ExprListIsRest(toks, p0);
      SingleArg(env, first.tree);
      ok, n := CompileMoreExpressions(c0, [first.tree], 1);
    }

    /** The loop of compileExpressionList: ',' and an expression while the
        current token is ','. The `count` expressions before it are `acc`,
        whose code follows `c0`. */
    method CompileMoreExpressions(ghost c0: seq<Command>, ghost acc: seq<Expr>, count: nat) returns (ok: bool, n: nat)
      requires Written() && pos < |toks| && count == |acc|
      requires ArgsResolved(Env(), acc) && code == c0 + ArgsCode(Env(), acc)
      modifies this`pos, this`code, out
      ensures Written()
      ensures ok <==> ParseExprListRest(toks, old(pos), acc).Some?
                      && ArgsResolved(Env(), ParseExprListRest(toks, old(pos), acc).value.tree)
      ensures ok ==> pos == ParseExprListRest(toks, old(pos), acc).value.next
                     && n == |ParseExprListRest(toks, old(pos), acc).value.tree|
                     && code == c0 + ArgsCode(Env(), ParseExprListRest(toks, old(pos), acc).value.tree)
      decreases |toks| - pos, 6
    {
      ghost var p0, env, args := pos, Env(), acc;
      n := count;
      while IsSymbolAt(toks, pos, ',')
        invariant Written() && Env() == env
        invariant p0 <= pos < |toks|
        invariant ParseExprListRest(toks, p0, acc) == ParseExprListRest(toks, pos, args)
        invariant ArgsResolved(env, args) && code == c0 + ArgsCode(env, args) && n == |args|
        decreases |toks| - pos
      {
        ghost var q := pos;
        Step();
        ok := CompileExpression();
        ghost var e := ParseExpr(toks, Following(toks, q));
        if !ok {
          if e.Some? && ParseExprListRest(toks, p0, acc).Some? && ArgsResolved(env, ParseExprListRest(toks, p0, acc).value.tree) {
            ArgsRestKeepsResolved(env, toks, e.value.next, args + [e.value.tree]);
            ArgsCodeAppend(env, args, e.value.tree);
          }
          return;
        }
        ArgsCodeAppend(env, args, e.value.tree);
        AppendAssoc3(c0, ArgsCode(env, args), ExprCode(env, e.value.tree));
        args := args + [e.value.tree];
        n := n + 1;
      }
      ok := true;
    }

    /** The receiver of a call qualified by x: a variable found in a table is
        pushed, and names its recorded class; any other name is a class name. */
    method CompileReceiver(x: string) returns (ok: bool, qualifierName: string, isMethodCall: bool)
      requires Written()
      modifies out, this`code
      ensures Written()
      ensures ok <==> (Lookup(Env(), x) != ST.NotFound ==> VarKind(Env(), x).Some?)
      ensures isMethodCall <==> Lookup(Env(), x) != ST.NotFound
      ensures ok ==> qualifierName == (if isMethodCall then ReceiverClass(Env(), x) else x)
                     && code == old(code) + (if isMethodCall then PushVar(Env(), x) else [])
    {
      var v := LookupName(x);
      isMethodCall := v != ST.NotFound;
      if !isMethodCall {
        assert code == code + [];
        return true, x, false;
      }
      var recorded: Option<string>;
      if subTable.GetVal(x) != ST.NotFound {
        recorded := subTable.GetClassName(v);
      } else {
        recorded := classTable.GetClassName(v);
      }
      var kind := ST.GetKind(v);
      if kind.None? {
        return false, "", true;
      }
      Emit(Push(VarSegment(kind.value), ST.GetIndex(v)));
      qualifierName := if recorded.Some? then recorded.value else "null";
      ok := true;
    }

    /** compileSubRoutineCall: a qualified call through a variable found in a
        table pushes that variable and calls its recorded class's subroutine
        with one extra argument; a qualified call through any other name is a
        function call; an unqualified call is a method call on `this`. */
    method CompileSubroutineCall() returns (ok: bool)
      requires Written()
      modifies this`pos, this`code, out
      ensures Written()
      ensures ok <==> JackParser.ParseCall(toks, old(pos)).Some? && CallResolved(Env(), JackParser.ParseCall(toks, old(pos)).value.tree)
      ensures ok ==> pos == JackParser.ParseCall(toks, old(pos)).value.next
                     && code == old(code) + CallCode(Env(), JackParser.ParseCall(toks, old(pos)).value.tree)
      decreases |toks| - pos, 1
    {
      ghost var p0 := pos;
      var x;
      ok, x := ConsumeIdentifier();
      if !ok {
        CallFails(toks, p0);
        return;
      }
      var c := FirstChar(toks, pos);
      if c.None? {
        CallFails(toks, p0);
        return false;
      }
      if c.value == '.' {
        ok := CompileQualifiedCall(p0, x);
      } else {
        ok := CompilePlainCall(p0, x);
      }
    }

    /** compileSubRoutineCall once the receiver x and a '.' after it are seen. */
    method CompileQualifiedCall(ghost p0: nat, x: string) returns (ok: bool)
      requires Written() && KindIs(toks, p0, IdentifierToken) && x == toks[p0].text
      requires pos == Following(toks, p0) && FirstChar(toks, pos) == Some('.')
      modifies this`pos, this`code, out
      ensures Written()
      ensures ok <==> JackParser.ParseCall(toks, p0).Some? && CallResolved(Env(), JackParser.ParseCall(toks, p0).value.tree)
      ensures ok ==> pos == JackParser.ParseCall(toks, p0).value.next
                     && code == old(code) + CallCode(Env(), JackParser.ParseCall(toks, p0).value.tree)
      decreases |toks| - p0, 1, 0
    {
      ghost var env := Env();
      var functionName, isMethodCall, name;
      ok, functionName, isMethodCall, name := CompileQualifiedName(x);
      if !ok {
        if IsSymbolAt(toks, Following(toks, p0), '.') && KindIs(toks, Following(toks, Following(toks, p0)), IdentifierToken) {
          QualifiedCallIsArgs(toks, p0);
        } else {
          CallFails(toks, p0);
        }
        return;
      }
      QualifiedCallIsArgs(toks, p0);
      ghost var q := pos;
      ok := CompileArguments(p0, Some(x), name, functionName, isMethodCall);
      if ok {
        CallOutcome(code, old(code), env, Some(x), name, ParseArgs(toks, p0, Some(x), name, q).value.tree.args,
                    functionName, isMethodCall);
      }
    }

    /** compileSubRoutineCall once the name x is seen with no '.' after it:
        `this` is pushed as the receiver. */
    method CompilePlainCall(ghost p0: nat, x: string) returns (ok: bool)
      requires Written() && KindIs(toks, p0, IdentifierToken) && x == toks[p0].text
      requires pos == Following(toks, p0) && FirstChar(toks, pos).Some? && FirstChar(toks, pos).value != '.'
      modifies this`pos, this`code, out
      ensures Written()
      ensures ok <==> JackParser.ParseCall(toks, p0).Some? && CallResolved(Env(), JackParser.ParseCall(toks, p0).value.tree)
      ensures ok ==> pos == JackParser.ParseCall(toks, p0).value.next
                     && code == old(code) + CallCode(Env(), JackParser.ParseCall(toks, p0).value.tree)
      decreases |toks| - p0, 1, 0
    {
      ghost var env := Env();
      PlainCallIsArgs(toks, p0);
      PlainReceiver(env, x);
      Emit(Push(Pointer, 0));
      var functionName := className + "." + x;
      ghost var q := pos;
      ok := CompileArguments(p0, None, x, functionName, true);
      if ok {
        CallOutcome(code, old(code), env, None, x, ParseArgs(toks, p0, None, x, q).value.tree.args, functionName, true);
      }
    }

    /** receiver '.' name in compileSubRoutineCall, at the '.' after the
        receiver x: the receiver's code comes before the '.' is consumed. */
    method CompileQualifiedName(x: string) returns (ok: bool, functionName: string, isMethodCall: bool, name: string)
      requires Written()
      modifies this`pos, this`code, out
      ensures Written()
      ensures ok <==> IsSymbolAt(toks, old(pos), '.') && KindIs(toks, Following(toks, old(pos)), IdentifierToken)
                      && (Lookup(Env(), x) != ST.NotFound ==> VarKind(Env(), x).Some?)
      ensures ok ==> name == toks[Following(toks, old(pos))].text
                     && pos == Following(toks, Following(toks, old(pos)))
                     && functionName == CallName(Env(), SubroutineCall(Some(x), name, []))
                     && isMethodCall == IsMethodCall(Env(), SubroutineCall(Some(x), name, []))
                     && code == old(code) + ReceiverCode(Env(), SubroutineCall(Some(x), name, []))
    {
      functionName, name := "", "";
      var qualifierName;
      ok, qualifierName, isMethodCall := CompileReceiver(x);
      if !ok {
        return;
      }
      ok := ConsumeSymbol('.');
      if !ok {
        return;
      }
      ok, name := ConsumeIdentifier();
      if !ok {
        return;
      }
      functionName := qualifierName + "." + name;
    }

    /** The rest of compileSubRoutineCall from the token after the
        subroutine's name: '(' expressionList ')', then the call with the
        argument count, one more for a method call. The receiver of the call
        is already pushed. */
    method CompileArguments(ghost start: nat, ghost qualifier: Option<string>, ghost name: string,
                            functionName: string, isMethodCall: bool) returns (ok: bool)
      requires Written() && (start < pos || KindIs(toks, pos, IdentifierToken))
      requires functionName == CallName(Env(), SubroutineCall(qualifier, name, []))
      requires isMethodCall == IsMethodCall(Env(), SubroutineCall(qualifier, name, []))
      modifies this`pos, this`code, out
      ensures Written()
      ensures ok <==> ParseArgs(toks, start, qualifier, name, old(pos)).Some?
                      && ArgsResolved(Env(), ParseArgs(toks, start, qualifier, name, old(pos)).value.tree.args)
      ensures ok ==> pos == ParseArgs(toks, start, qualifier, name, old(pos)).value.next
                     && code == old(code) + ArgsCode(Env(), ParseArgs(toks, start, qualifier, name, old(pos)).value.tree.args)
                                          + [Call(functionName, |ParseArgs(toks, start, qualifier, name, old(pos)).value.tree.args|
                                                                + if isMethodCall then 1 else 0)]
      decreases |toks| - start, 0
    {
      ok := ConsumeSymbol('(');
      if !ok {
        return;
      }
      var nArgs;
      ok, nArgs := CompileExpressionList();
      if !ok {
        return;
      }
      ok := ConsumeSymbol(')');
      if !ok {
        return;
      }
      Emit(Call(functionName, nArgs + if isMethodCall then 1 else 0));
    }

    // Statements

    /** compileStatements: statements while the current token is one of the
        five statement keywords. */
    method CompileStatements() returns (ok: bool)
      requires Written()
      modifies this`pos, this`code, out, this`nextLabelNumber
      ensures Written()
      ensures ok <==> ParseStatementsFrom(toks, old(pos), []).Some?
                      && StmtsResolved(Env(), ParseStatementsFrom(toks, old(pos), []).value.tree)
      ensures ok ==> pos == ParseStatementsFrom(toks, old(pos), []).value.next
                     && nextLabelNumber == old(nextLabelNumber) + UsedAll(ParseStatementsFrom(toks, old(pos), []).value.tree)
                     && code == old(code) + StmtsCode(Env(), ParseStatementsFrom(toks, old(pos), []).value.tree, old(nextLabelNumber))
      decreases |toks| - pos, 10
    {
      ghost var p0, c0, n0, env := pos, code, nextLabelNumber, Env();
      ghost var acc: seq<Statement> := [];
      assert code == c0 + StmtsCode(env, acc, n0);
      while StartsStatement(toks, pos)
        invariant Written() && Env() == env
        invariant p0 <= pos && (p0 < |toks| ==> pos < |toks|)
        invariant ParseStatementsFrom(toks, p0, []) == ParseStatementsFrom(toks, pos, acc)
        invariant StmtsResolved(env, acc)
        invariant code == c0 + StmtsCode(env, acc, n0) && nextLabelNumber == n0 + UsedAll(acc)
        decreases |toks| - pos
      {
        ghost var q, n, cq := pos, nextLabelNumber, code;
        ok := CompileStatement();
        StatementsStepOutcome(toks, p0, q, env, acc, c0, n0, cq, n, ok, pos, nextLabelNumber, code);
        if !ok {
          return;
        }
        acc := acc + [ParseStatement(toks, q).value.tree];
      }
      ok := true;
    }

    /** One statement, chosen by its keyword. */
    method CompileStatement() returns (ok: bool)
      requires Written() && StartsStatement(toks, pos)
      modifies this`pos, this`code, out, this`nextLabelNumber
      ensures Written()
      ensures ok <==> ParseStatement(toks, old(pos)).Some? && StmtResolved(Env(), ParseStatement(toks, old(pos)).value.tree)
      ensures ok ==> pos == ParseStatement(toks, old(pos)).value.next
                     && nextLabelNumber == old(nextLabelNumber) + Used(ParseStatement(toks, old(pos)).value.tree)
                     && code == old(code) + StmtCode(Env(), ParseStatement(toks, old(pos)).value.tree, old(nextLabelNumber))
      decreases |toks| - pos, 9
    {
      match KeywordAt(toks, pos).value
      case While => ok := CompileWhileStatement();
      case If => ok := CompileIfStatement();
      case Let => ok := CompileLetStatement();
      case Do => ok := CompileDoStatement();
      case Return => ok := CompileReturnStatement();
    }

    /** compileDoStatement: the call, then its result discarded into temp 0. */
    method CompileDoStatement() returns (ok: bool)
      requires Written() && IsKeywordAt(toks, pos, K.Do)
      modifies this`pos, this`code, out
      ensures Written()
      ensures ok <==> ParseDo(toks, old(pos)).Some? && StmtResolved(Env(), ParseDo(toks, old(pos)).value.tree)
      ensures ok ==> pos == ParseDo(toks, old(pos)).value.next
                     && code == old(code) + StmtCode(Env(), ParseDo(toks, old(pos)).value.tree, nextLabelNumber)
      decreases |toks| - pos, 8
    {
      ghost var p0, env := pos, Env();
      Step();
      ok := CompileSubroutineCall();
      ghost var call := JackParser.ParseCall(toks, Following(toks, p0));
      if !ok {
        assert ParseDo(toks, p0).Some? ==> call.Some? && ParseDo(toks, p0).value.tree == DoStmt(call.value.tree);
        return;
      }
      Emit(Pop(Temp, 0));
      AppendAssoc3(old(code), CallCode(env, call.value.tree), [Pop(Temp, 0)]);
      ok := ConsumeSymbol(';');
      assert ok ==> ParseDo(toks, p0) == Some(Parsed(DoStmt(call.value.tree), pos));
    }

    /** compileReturnStatement: an expression unless the next token is a
        symbol, otherwise the constant 0; then return and ';'. */
    method CompileReturnStatement() returns (ok: bool)
      requires Written() && IsKeywordAt(toks, pos, K.Return)
      modifies this`pos, this`code, out
      ensures Written()
      ensures ok <==> ParseReturn(toks, old(pos)).Some? && StmtResolved(Env(), ParseReturn(toks, old(pos)).value.tree)
      ensures ok ==> pos == ParseReturn(toks, old(pos)).value.next
                     && code == old(code) + StmtCode(Env(), ParseReturn(toks, old(pos)).value.tree, nextLabelNumber)
      decreases |toks| - pos, 8
    {
      ghost var p0 := pos;
      Step();
      ghost var p1 := pos;
      if !KindIs(toks, pos, SymbolToken) {
        ok := CompileExpression();
        ghost var e := ParseExpr(toks, p1);
        if !ok {
          assert ParseReturn(toks, p0).Some? ==> e.Some? && ParseReturn(toks, p0).value.tree == ReturnValue(e.value.tree);
          return;
        }
        Emit(Return);
        AppendAssoc3(old(code), ExprCode(Env(), e.value.tree), [Return]);
        ok := ConsumeSymbol(';');
        assert ok ==> ParseReturn(toks, p0) == Some(Parsed(ReturnValue(e.value.tree), pos));
        assert !ok ==> ParseReturn(toks, p0).None?;
        assert ok ==> StmtResolved(Env(), ParseReturn(toks, p0).value.tree);
      } else {
        EmitAll([Push(Constant, 0), Return]);
        ok := ConsumeSymbol(';');
        assert ok ==> ParseReturn(toks, p0) == Some(Parsed(ReturnVoid, pos));
        assert !ok ==> ParseReturn(toks, p0).None?;
        assert ok ==> StmtResolved(Env(), ReturnVoid);
      }
    }

    /** compileLetStatement: the variable is looked up before the token
        after it decides between an array element and a plain variable. */
    method CompileLetStatement() returns (ok: bool)
      requires Written() && IsKeywordAt(toks, pos, K.Let)
      modifies this`pos, this`code, out
      ensures Written()
      ensures ok <==> ParseLet(toks, old(pos)).Some? && StmtResolved(Env(), ParseLet(toks, old(pos)).value.tree)
      ensures ok ==> pos == ParseLet(toks, old(pos)).value.next
                     && code == old(code) + StmtCode(Env(), ParseLet(toks, old(pos)).value.tree, nextLabelNumber)
      decreases |toks| - pos, 8
    {
      ghost var start := pos;
      Step();
      var x;
      ok, x := ConsumeIdentifier();
      if !ok {
        LetFails(toks, start);
        return;
      }
      var v := LookupName(x);
      var kind := ST.GetKind(v);
      if v == ST.NotFound || kind.None? {
        LetUnresolved(toks, start, Env());
        return false;
      }
      var c := FirstChar(toks, pos);
      if c.None? {
        LetFails(toks, start);
        return false;
      }
      LetShape(toks, start);
      if c.value == '[' {
        ok := CompileIndexedAssignment(start, x, kind.value, ST.GetIndex(v));
      } else {
        ok := CompileLetValue(start, x, kind.value, ST.GetIndex(v), false, None);
      }
    }

    /** let x [ index ] = value ; from the '[': the element's address goes to
        temp 0 while the value is computed. */
    method CompileIndexedAssignment(ghost start: nat, x: string, kind: ST.SymbolKind, index: nat) returns (ok: bool)
      requires Written() && IsKeywordAt(toks, start, K.Let) && pos == Following(toks, Following(toks, start))
      requires VarKind(Env(), x) == Some(kind) && index == ST.GetIndex(Lookup(Env(), x))
      modifies this`pos, this`code, out
      ensures Written()
      ensures ok <==> ParseLetIndexed(toks, start, x, old(pos)).Some?
                      && StmtResolved(Env(), ParseLetIndexed(toks, start, x, old(pos)).value.tree)
      ensures ok ==> pos == ParseLetIndexed(toks, start, x, old(pos)).value.next
                     && code == old(code) + StmtCode(Env(), ParseLetIndexed(toks, start, x, old(pos)).value.tree, nextLabelNumber)
      decreases |toks| - start, 7
    {
      ghost var env, p2, c0 := Env(), pos, code;
      Emit(Push(VarSegment(kind), index));
      ok := ConsumeSymbol('[');
      if !ok {
        IndexedFails(toks, start, x, p2);
        return;
      }
      ghost var p3 := pos;
      ok := CompileExpression();
      if !ok {
        if ParseExpr(toks, p3).Some? {
          IndexUnresolved(toks, start, x, p2, env);
        } else {
          IndexedFails(toks, start, x, p2);
        }
        return;
      }
      ghost var i := ParseExpr(toks, p3).value;
      ok := ConsumeSymbol(']');
      if !ok {
        IndexedFails(toks, start, x, p2);
        return;
      }
      EmitAll([Add, Pop(Temp, 0)]);
      IndexedIsValue(toks, start, x, p2);
      ghost var q := pos;
      ok := CompileLetValue(start, x, kind, index, true, Some(i.tree));
      IndexedOutcome(toks, start, x, i.tree, q, env, kind, index, ok, c0, code, nextLabelNumber);
    }

    /** = value ; ending a let statement, then the store: into the array
        element whose address is in temp 0, or into the variable. */
    method CompileLetValue(ghost start: nat, x: string, kind: ST.SymbolKind, index: nat,
                           indexed: bool, ghost target: Option<Expr>) returns (ok: bool)
      requires Written() && IsKeywordAt(toks, start, K.Let) && start <= pos && (indexed <==> target.Some?)
      requires VarKind(Env(), x) == Some(kind) && index == ST.GetIndex(Lookup(Env(), x))
      modifies this`pos, this`code, out
      ensures Written()
      ensures ok <==> ParseLetValue(toks, start, x, target, old(pos)).Some?
                      && ExprResolved(Env(), ParseLetValue(toks, start, x, target, old(pos)).value.tree.rhs)
      ensures ok ==> pos == ParseLetValue(toks, start, x, target, old(pos)).value.next
                     && code == old(code) + ExprCode(Env(), ParseLetValue(toks, start, x, target, old(pos)).value.tree.rhs)
                                + (if indexed then [Push(Temp, 0), Pop(Pointer, 1), Pop(That, 0)] else PopVar(Env(), x))
      decreases |toks| - start, 6
    {
      ghost var env, p := Env(), pos;
      ok := ConsumeSymbol('=');
      if !ok {
        return;
      }
      ghost var p1 := pos;
      ok := CompileExpression();
      ghost var e := ParseExpr(toks, p1);
      if !ok {
        assert ParseLetValue(toks, start, x, target, p).Some? ==> e.Some? && ParseLetValue(toks, start, x, target, p).value.tree.rhs == e.value.tree;
        return;
      }
      ok := ConsumeSymbol(';');
      if !ok {
        return;
      }
      assert ParseLetValue(toks, start, x, target, p) == Some(Parsed(LetOf(x, target, e.value.tree), pos));
      if indexed {
        EmitAll([Push(Temp, 0), Pop(Pointer, 1), Pop(That, 0)]);
      } else {
        Emit(Pop(VarSegment(kind), index));
        assert PopVar(env, x) == [Pop(VarSegment(kind), index)];
      }
      AppendAssoc3(old(code), ExprCode(env, e.value.tree), if indexed then [Push(Temp, 0), Pop(Pointer, 1), Pop(That, 0)] else PopVar(env, x));
    }

    /** compileWhileStatement: both labels are drawn before the condition. */
    method CompileWhileStatement() returns (ok: bool)
      requires Written() && IsKeywordAt(toks, pos, K.While)
      modifies this`pos, this`code, out, this`nextLabelNumber
      ensures Written()
      ensures ok <==> ParseWhile(toks, old(pos)).Some? && StmtResolved(Env(), ParseWhile(toks, old(pos)).value.tree)
      ensures ok ==> pos == ParseWhile(toks, old(pos)).value.next
                     && nextLabelNumber == old(nextLabelNumber) + Used(ParseWhile(toks, old(pos)).value.tree)
                     && code == old(code) + StmtCode(Env(), ParseWhile(toks, old(pos)).value.tree, old(nextLabelNumber))
      decreases |toks| - pos, 8
    {
      ghost var n, p0, c0, env := nextLabelNumber, pos, code, Env();
      Step();
      var top := GenerateLabel();
      Emit(Label(top));
      var exit := GenerateLabel();
      ok := CompileCondition();
      if !ok {
        WhileConditionFails(toks, p0, env);
        return;
      }
      WhileIsBody(toks, p0);
      ok := CompileLoopBody(p0, c0, ParseCondition(toks, Following(toks, p0)).value.tree, n, top, exit);
    }

    /** The rest of compileWhileStatement once the condition is compiled:
        leave the loop when it is false, run the body, jump back to the top. */
    method CompileLoopBody(ghost start: nat, ghost c0: seq<Command>, ghost cond: Expr, ghost n: nat,
                           top: string, exit: string) returns (ok: bool)
      requires Written() && start < pos
      requires top == LabelName(n) && exit == LabelName(n + 1) && nextLabelNumber == n + 2
      requires ExprResolved(Env(), cond) && code == c0 + [Label(top)] + ExprCode(Env(), cond)
      modifies this`pos, this`code, out, this`nextLabelNumber
      ensures Written()
      ensures ok <==> ParseBlock(toks, old(pos)).Some?
                      && StmtResolved(Env(), WhileStmt(cond, ParseBlock(toks, old(pos)).value.tree))
      ensures ok ==> pos == ParseBlock(toks, old(pos)).value.next
                     && nextLabelNumber == n + Used(WhileStmt(cond, ParseBlock(toks, old(pos)).value.tree))
                     && code == c0 + StmtCode(Env(), WhileStmt(cond, ParseBlock(toks, old(pos)).value.tree), n)
      decreases |toks| - start, 7
    {
      ghost var env := Env();
      EmitAll([Not, IfGoto(exit)]);
      ghost var p0 := pos;
      ok := CompileBlock();
      if !ok {
        return;
      }
      ghost var b := ParseBlock(toks, p0).value.tree;
      EmitAll([Goto(top), Label(exit)]);
      AppendAssoc6(c0, [Label(LabelName(n))], ExprCode(env, cond), [Not, IfGoto(LabelName(n + 1))],
                   StmtsCode(env, b, n + 2), [Goto(LabelName(n)), Label(LabelName(n + 1))]);
    }

    /** compileIfStatement: the first label is drawn after the condition,
        the second when an else part follows. */
    method CompileIfStatement() returns (ok: bool)
      requires Written() && IsKeywordAt(toks, pos, K.If)
      modifies this`pos, this`code, out, this`nextLabelNumber
      ensures Written()
      ensures ok <==> ParseIf(toks, old(pos)).Some? && StmtResolved(Env(), ParseIf(toks, old(pos)).value.tree)
      ensures ok ==> pos == ParseIf(toks, old(pos)).value.next
                     && nextLabelNumber == old(nextLabelNumber) + Used(ParseIf(toks, old(pos)).value.tree)
                     && code == old(code) + StmtCode(Env(), ParseIf(toks, old(pos)).value.tree, old(nextLabelNumber))
      decreases |toks| - pos, 8
    {
      ghost var n, p0, c0, env := nextLabelNumber, pos, code, Env();
      Step();
      ok := CompileCondition();
      if !ok {
        IfConditionFails(toks, p0, env);
        return;
      }
      var l1 := GenerateLabel();
      ok := CompileBranches(p0, n, l1);
      IfOutcome(toks, p0, env, n, ok, pos, nextLabelNumber, c0, code);
    }

    /** The rest of compileIfStatement once the condition is compiled: skip
        the first block when the condition is false. */
    method CompileBranches(ghost start: nat, ghost n: nat, skip: string) returns (ok: bool)
      requires Written() && start < pos
      requires nextLabelNumber == n + 1 && skip == LabelName(n)
      modifies this`pos, this`code, out, this`nextLabelNumber
      ensures Written()
      ensures ok <==> ParseBranches(toks, old(pos)).Some? && BranchesResolved(Env(), ParseBranches(toks, old(pos)).value.tree)
      ensures ok ==> pos == ParseBranches(toks, old(pos)).value.next
                     && nextLabelNumber == n + BranchesUsed(ParseBranches(toks, old(pos)).value.tree)
                     && code == old(code) + BranchesCode(Env(), ParseBranches(toks, old(pos)).value.tree, n)
      decreases |toks| - start, 7
    {
      ghost var p0, c0, env := pos, code, Env();
      EmitAll([Not, IfGoto(skip)]);
      ok := CompileBlock();
      if !ok {
        ThenFails(toks, p0, env);
        return;
      }
      ok := CompileElseOpt(start, skip);
      BranchesOutcome(toks, p0, env, n, ok, pos, nextLabelNumber, c0, code);
    }

    /** The optional else part of compileIfStatement: with one, a fresh label
        closes it and `skip` (the first label) opens it; without one, `skip`
        is placed right after the first block. */
    method CompileElseOpt(ghost start: nat, skip: string) returns (ok: bool)
      requires Written() && start < pos
      modifies this`pos, this`code, out, this`nextLabelNumber
      ensures Written()
      ensures ok <==> ParseElseOpt(toks, old(pos)).Some? && ElseResolved(Env(), ParseElseOpt(toks, old(pos)).value.tree)
      ensures ok ==> pos == ParseElseOpt(toks, old(pos)).value.next
                     && nextLabelNumber == old(nextLabelNumber) + ElseUsed(ParseElseOpt(toks, old(pos)).value.tree)
                     && code == old(code) + ElseCode(Env(), ParseElseOpt(toks, old(pos)).value.tree, skip, old(nextLabelNumber))
      decreases |toks| - start, 6
    {
      ghost var p0, n0, c0, env := pos, nextLabelNumber, code, Env();
      if !IsKeywordAt(toks, pos, K.Else) {
        NoElse(toks, p0, env, skip, n0);
        Emit(Label(skip));
        return true;
      }
      var l2 := GenerateLabel();
      EmitAll([Goto(l2), Label(skip)]);
      Step();
      ok := CompileBlock();
      if ok {
        Emit(Label(l2));
      }
      ElseBlockOutcome(toks, p0, env, skip, n0, ok, pos, nextLabelNumber, c0, code);
    }

    /** ( expression ), the condition of while and if. */
    method CompileCondition() returns (ok: bool)
      requires Written()
      modifies this`pos, this`code, out
      ensures Written()
      ensures ok <==> ParseCondition(toks, old(pos)).Some? && ExprResolved(Env(), ParseCondition(toks, old(pos)).value.tree)
      ensures ok ==> pos == ParseCondition(toks, old(pos)).value.next
                     && code == old(code) + ExprCode(Env(), ParseCondition(toks, old(pos)).value.tree)
      decreases |toks| - pos, 6
    {
      ghost var p0 := pos;
      ok := ConsumeSymbol('(');
      if !ok {
        return;
      }
      ghost var p1 := pos;
      ok := CompileExpression();
      ghost var e := ParseExpr(toks, p1);
      if !ok {
        assert ParseCondition(toks, p0).Some? ==> e.Some? && ParseCondition(toks, p0).value.tree == e.value.tree;
        return;
      }
      ok := ConsumeSymbol(')');
      assert ok ==> ParseCondition(toks, p0) == Some(Parsed(e.value.tree, pos));
    }

    /** { statements }, the body of while and both branches of if. */
    method CompileBlock() returns (ok: bool)
      requires Written()
      modifies this`pos, this`code, out, this`nextLabelNumber
      ensures Written()
      ensures ok <==> ParseBlock(toks, old(pos)).Some? && StmtsResolved(Env(), ParseBlock(toks, old(pos)).value.tree)
      ensures ok ==> pos == ParseBlock(toks, old(pos)).value.next
                     && nextLabelNumber == old(nextLabelNumber) + UsedAll(ParseBlock(toks, old(pos)).value.tree)
                     && code == old(code) + StmtsCode(Env(), ParseBlock(toks, old(pos)).value.tree, old(nextLabelNumber))
      decreases |toks| - pos, 11
    {
      ghost var p0 := pos;
      ok := ConsumeSymbol('{');
      if !ok {
        return;
      }
      ghost var p1 := pos;
      ok := CompileStatements();
      ghost var b := ParseStatementsFrom(toks, p1, []);
      if !ok {
        assert ParseBlock(toks, p0).Some? ==> b.Some? && ParseBlock(toks, p0).value.tree == b.value.tree;
        return;
      }
      ok := ConsumeSymbol('}');
      assert ok ==> ParseBlock(toks, p0) == Some(Parsed(b.value.tree, pos));
    }

    // Declarations

    /** consumeType: a class name, int, char or boolean. */
    method ConsumeType() returns (ok: bool)
      requires Written()
      modifies this`pos
      ensures Written()
      ensures ok <==> ParseType(toks, old(pos)).Some?
      ensures ok ==> pos == ParseType(toks, old(pos)).value.next
    {
      ok := KindIs(toks, pos, IdentifierToken) || IsKeywordAt(toks, pos, K.Int)
            || IsKeywordAt(toks, pos, K.Char) || IsKeywordAt(toks, pos, K.Boolean);
      if ok {
        Step();
      }
    }

    /** The type in a class variable, parameter or local declaration: a class
        name is consumed as an identifier and recorded, a primitive type is
        told by its keyword and consumed by consumeType. */
    method CompileType() returns (ok: bool, symbolType: ST.SymbolType, typeClass: Option<string>)
      requires Written()
      modifies this`pos
      ensures Written()
      ensures ok <==> ParseType(toks, old(pos)).Some?
      ensures ok ==> pos == ParseType(toks, old(pos)).value.next
                     && symbolType == SymbolTypeOf(ParseType(toks, old(pos)).value.tree)
                     && typeClass == ClassNameOf(ParseType(toks, old(pos)).value.tree)
    {
      typeClass := None;
      if KindIs(toks, pos, IdentifierToken) {
        var name;
        ok, name := ConsumeIdentifier();
        symbolType, typeClass := ST.ClassNameType, Some(name);
        return;
      }
      if IsKeywordAt(toks, pos, K.Char) {
        symbolType := ST.CharType;
      } else if IsKeywordAt(toks, pos, K.Boolean) {
        symbolType := ST.BooleanType;
      } else {
        symbolType := ST.IntType;
      }
      ok := ConsumeType();
    }

    /** name (, name)*: the names of a class variable or local declaration. */
    method CompileNameList() returns (ok: bool, names: seq<string>)
      requires Written()
      modifies this`pos
      ensures Written()
      ensures ok <==> ParseNameList(toks, old(pos)).Some?
      ensures ok ==> pos == ParseNameList(toks, old(pos)).value.next && names == ParseNameList(toks, old(pos)).value.tree
    {
      ghost var p0 := pos;
      var x;
      ok, x := ConsumeIdentifier();
      names := [x];
      if !ok {
        return;
      }
      while IsSymbolAt(toks, pos, ',')
        invariant Written() && pos < |toks|
        invariant ParseNameList(toks, p0) == ParseMoreNames(toks, pos, names)
        decreases |toks| - pos
      {
        Step();
        ok, x := ConsumeIdentifier();
        if !ok {
          return;
        }
        names := names + [x];
      }
    }

    /** compileClassVarDec: the names are inserted into the class table, in
        order, once the declaration has been read up to its ';'. */
    method CompileClassVarDec() returns (ok: bool)
      requires Valid() && StartsClassVarDec(toks, pos)
      modifies this`pos, classTable
      ensures Valid()
      ensures ok <==> ParseClassVarDec(toks, old(pos)).Some?
      ensures ok ==> pos == ParseClassVarDec(toks, old(pos)).value.next
                     && classTable.history == ClassVarHistory(old(classTable.history), ParseClassVarDec(toks, old(pos)).value.tree)
    {
      ghost var p0 := pos;
      var kind := if IsKeywordAt(toks, pos, K.Static) then ST.Static else ST.Field;
      Step();
      ghost var p1 := pos;
      var symbolType, typeClass;
      ok, symbolType, typeClass := CompileType();
      if !ok {
        return;
      }
      var names;
      ok, names := CompileNameList();
      if !ok {
        return;
      }
      ok := ConsumeSymbol(';');
      if !ok {
        return;
      }
      InsertNames(classTable, names, ParseType(toks, p1).value.tree, symbolType, typeClass, kind);
    }

    /** compileVarDec: the names are inserted into the subroutine table as
        locals once the declaration has been read up to its ';'. */
    method CompileVarDec() returns (ok: bool)
      requires Valid() && IsKeywordAt(toks, pos, K.Var)
      modifies this`pos, subTable
      ensures Valid()
      ensures ok <==> ParseVarDec(toks, old(pos)).Some?
      ensures ok ==> pos == ParseVarDec(toks, old(pos)).value.next
                     && subTable.history == Declare(old(subTable.history), ParseVarDec(toks, old(pos)).value.tree.names,
                                                    ParseVarDec(toks, old(pos)).value.tree.ty, ST.Local)
    {
      Step();
      ghost var p1 := pos;
      var symbolType, typeClass;
      ok, symbolType, typeClass := CompileType();
      if !ok {
        return;
      }
      var names;
      ok, names := CompileNameList();
      if !ok {
        return;
      }
      ok := ConsumeSymbol(';');
      if !ok {
        return;
      }
      InsertNames(subTable, names, ParseType(toks, p1).value.tree, symbolType, typeClass, ST.Local);
    }

    /** The parameters, each inserted as an argument when its name has been read. */
    method CompileParameterList() returns (ok: bool)
      requires Valid()
      modifies this`pos, subTable
      ensures Valid()
      ensures ok <==> ParseParameterList(toks, old(pos)).Some?
      ensures ok ==> pos == ParseParameterList(toks, old(pos)).value.next
                     && subTable.history == ParamsHistory(old(subTable.history), ParseParameterList(toks, old(pos)).value.tree)
    {
      if IsSymbolAt(toks, pos, ')') {
        return true;
      }
      ghost var p0, h0 := pos, subTable.history;
      ghost var ps: seq<Parameter> := [];
      while true
        invariant Valid() && p0 <= pos
        invariant ParseParameterList(toks, p0) == ParseParameters(toks, pos, ps)
        invariant subTable.history == ParamsHistory(h0, ps)
        decreases |toks| - pos
      {
        ghost var q := pos;
        ConsumeSymbolWeak(',');
        ghost var p1 := pos;
        var symbolType, typeClass;
        ok, symbolType, typeClass := CompileType();
        if !ok {
          return;
        }
        var name;
        ok, name := ConsumeIdentifier();
        if !ok {
          return;
        }
        ghost var t := ParseType(toks, p1).value.tree;
        InsertNames(subTable, [name], t, symbolType, typeClass, ST.Argument);
        assert [name][..0] == [];
        ps := ps + [Parameter(t, name)];
        if !IsSymbolAt(toks, pos, ',') {
          return;
        }
      }
    }

    /** writeAlloc: push the size, then call Memory.alloc. */
    method WriteAlloc(size: nat)
      requires Written()
      modifies out, this`code
      ensures Written() && code == old(code) + [Push(Constant, size), Call("Memory.alloc", 1)]
    {
      out.WriteAlloc(size);
      RenderAppend(code, [Push(Constant, size), Call("Memory.alloc", 1)]);
      code := code + [Push(Constant, size), Call("Memory.alloc", 1)];
    }

    /** The local variable declarations while the current token is var. */
    method CompileVarDecs() returns (ok: bool)
      requires Valid()
      modifies this`pos, subTable
      ensures Valid()
      ensures ok <==> ParseVarDecs(toks, old(pos), []).Some?
      ensures ok ==> pos == ParseVarDecs(toks, old(pos), []).value.next
                     && subTable.history == LocalsHistory(old(subTable.history), ParseVarDecs(toks, old(pos), []).value.tree)
    {
      ghost var p0, h0 := pos, subTable.history;
      ghost var ls: seq<VarDec> := [];
      while IsKeywordAt(toks, pos, K.Var)
        invariant Valid() && p0 <= pos
        invariant ParseVarDecs(toks, p0, []) == ParseVarDecs(toks, pos, ls)
        invariant subTable.history == LocalsHistory(h0, ls)
        decreases |toks| - pos
      {
        ghost var d := ParseVarDec(toks, pos);
        ok := CompileVarDec();
        if !ok {
          return;
        }
        ls := ls + [d.value.tree];
      }
      ok := true;
    }

    /** What the engine reads of its tables is what their insertions define. */
    lemma EnvOfHistories()
      requires Valid()
      ensures Env() == CodeGen.Env(className, ScopeOf(subTable.history), ScopeOf(classTable.history))
    {
    }

    /** What follows `function C.f n` in a constructor or a method. */
    method EmitPrologue(kind: SubroutineKind, fields: nat)
      requires Written()
      modifies out, this`code
      ensures Written() && code == old(code) + Prologue(kind, fields)
    {
      if kind == ConstructorSub {
        WriteAlloc(fields);
        Emit(Pop(Pointer, 0));
      } else if kind == MethodSub {
        EmitAll([Push(Argument, 0), Pop(Pointer, 0)]);
      }
    }

    /** The part of compileSubroutineBody after the local declarations: the
        function line with the number of locals, the prologue, the
        statements and the closing '}'. */
    method CompileSubroutineCode(kind: SubroutineKind, name: string) returns (ok: bool)
      requires Valid()
      modifies this`pos, this`code, out, this`nextLabelNumber
      ensures Valid()
      ensures ok <==> ParseStatementsFrom(toks, old(pos), []).Some?
                      && StmtsResolved(Env(), ParseStatementsFrom(toks, old(pos), []).value.tree)
                      && IsSymbolAt(toks, ParseStatementsFrom(toks, old(pos), []).value.next, '}')
      ensures ok ==> pos == Following(toks, ParseStatementsFrom(toks, old(pos), []).value.next)
                     && nextLabelNumber == old(nextLabelNumber) + UsedAll(ParseStatementsFrom(toks, old(pos), []).value.tree)
                     && code == old(code) + SubroutineCode(Env(), kind, name, ST.CountKind(subTable.history, ST.Local),
                                                           ST.CountKind(classTable.history, ST.Field),
                                                           ParseStatementsFrom(toks, old(pos), []).value.tree, old(nextLabelNumber))
    {
      var locals := subTable.NumberOfLocalVariables();
      Emit(Function(className + "." + name, locals));
      var fields := classTable.NumberOfFields();
      EmitPrologue(kind, fields);
      ok := CompileStatements();
      if !ok {
        return;
      }
      ok := ConsumeSymbol('}');
      AppendAssoc4(old(code), [Function(className + "." + name, locals)], Prologue(kind, fields),
                   StmtsCode(Env(), ParseStatementsFrom(toks, old(pos), []).value.tree, old(nextLabelNumber)));
    }

    /** compileSubroutineBody: { varDec* statements }, the function line
        written once the locals are declared. */
    method CompileSubroutineBody(kind: SubroutineKind, name: string, ghost params: seq<Parameter>) returns (ok: bool)
      requires Valid() && subTable.history == ParamsHistory(ThisEntries(kind), params)
      modifies this`pos, this`code, out, this`nextLabelNumber, subTable
      ensures Valid()
      ensures ok <==> ParseSubroutineBody(toks, old(pos), kind, name, params).Some?
                      && StmtsResolved(SubEnv(className, classTable.history, ParseSubroutineBody(toks, old(pos), kind, name, params).value.tree),
                                       ParseSubroutineBody(toks, old(pos), kind, name, params).value.tree.body)
      ensures ok ==> pos == ParseSubroutineBody(toks, old(pos), kind, name, params).value.next
                     && nextLabelNumber == old(nextLabelNumber) + UsedAll(ParseSubroutineBody(toks, old(pos), kind, name, params).value.tree.body)
                     && code == old(code) + SubDecCode(className, classTable.history,
                                                       ParseSubroutineBody(toks, old(pos), kind, name, params).value.tree, old(nextLabelNumber))
    {
      ghost var p0 := pos;
      ok := ConsumeSymbol('{');
      if !ok {
        return;
      }
      ghost var p1 := pos;
      ok := CompileVarDecs();
      if !ok {
        return;
      }
      ghost var ls := ParseVarDecs(toks, p1, []).value;
      ok := CompileSubroutineCode(kind, name);
      ghost var b := ParseStatementsFrom(toks, ls.next, []);
      EnvOfHistories();
      assert ParseSubroutineBody(toks, p0, kind, name, params).Some? ==>
        b.Some? && ParseSubroutineBody(toks, p0, kind, name, params).value.tree == SubroutineDec(kind, name, params, ls.tree, b.value.tree);
    }

    /** The part of compileSubroutineDec after the name: ( parameterList ) subroutineBody */
    method CompileSubroutineRest(kind: SubroutineKind, name: string) returns (ok: bool)
      requires Valid() && subTable.history == ThisEntries(kind)
      modifies this`pos, this`code, out, this`nextLabelNumber, subTable
      ensures Valid()
      ensures ok <==> ParseSubroutineRest(toks, old(pos), kind, name).Some?
                      && StmtsResolved(SubEnv(className, classTable.history, ParseSubroutineRest(toks, old(pos), kind, name).value.tree),
                                       ParseSubroutineRest(toks, old(pos), kind, name).value.tree.body)
      ensures ok ==> pos == ParseSubroutineRest(toks, old(pos), kind, name).value.next
                     && nextLabelNumber == old(nextLabelNumber) + UsedAll(ParseSubroutineRest(toks, old(pos), kind, name).value.tree.body)
                     && code == old(code) + SubDecCode(className, classTable.history,
                                                       ParseSubroutineRest(toks, old(pos), kind, name).value.tree, old(nextLabelNumber))
    {
      ghost var p0, n0, c0 := pos, nextLabelNumber, code;
      ok := ConsumeSymbol('(');
      if !ok {
        SubroutineRestFails(toks, p0, kind, name);
        return;
      }
      ghost var p1 := pos;
      ok := CompileParameterList();
      if !ok {
        SubroutineRestFails(toks, p0, kind, name);
        return;
      }
      ghost var ps := ParseParameterList(toks, p1).value.tree;
      ok := ConsumeSymbol(')');
      if !ok {
        SubroutineRestFails(toks, p0, kind, name);
        return;
      }
      SubroutineRestIsBody(toks, p0, kind, name);
      assert nextLabelNumber == n0 && code == c0;
      ok := CompileSubroutineBody(kind, name, ps);
    }

    /** The class table compileClass starts from: a fresh, empty one. */
    method StartClassTable()
      requires Valid()
      modifies this`classTable
      ensures Valid() && fresh(classTable) && classTable.history == []
    {
      classTable := new ST.SymbolTable();
    }

    /** The subroutine table compileSubroutineDec starts from: a fresh one,
        with `this` as argument 0 in a method. */
    method StartSubroutineTable(kind: SubroutineKind)
      requires Valid()
      modifies this`subTable
      ensures Valid() && fresh(subTable) && subTable.history == ThisEntries(kind)
    {
      subTable := new ST.SymbolTable();
      if kind == MethodSub {
        var _ := subTable.InsertSymbol("this", ST.ClassNameType, ST.Argument);
      }
    }

    /** compileSubroutineDec: a fresh subroutine table, `this` first in a
        method, then the return type checked and the name read. */
    method CompileSubroutineDec() returns (ok: bool)
      requires Valid() && SubroutineKindAt(toks, pos).Some?
      modifies this`pos, this`code, out, this`nextLabelNumber, this`subTable
      ensures Valid()
      ensures ok <==> ParseSubroutineDec(toks, old(pos)).Some?
                      && StmtsResolved(SubEnv(className, classTable.history, ParseSubroutineDec(toks, old(pos)).value.tree),
                                       ParseSubroutineDec(toks, old(pos)).value.tree.body)
      ensures ok ==> pos == ParseSubroutineDec(toks, old(pos)).value.next
                     && nextLabelNumber == old(nextLabelNumber) + UsedAll(ParseSubroutineDec(toks, old(pos)).value.tree.body)
                     && code == old(code) + SubDecCodeOf(className, classTable.history)(
                                              ParseSubroutineDec(toks, old(pos)).value.tree, old(nextLabelNumber))
    {
      ghost var p0, n0 := pos, nextLabelNumber;
      var kind := SubroutineKindAt(toks, pos).value;
      StartSubroutineTable(kind);
      Step();
      DecIsHeading(toks, p0);
      ok := CompileSubroutineHeading(kind);
      if ok {
        SubDecCodeOfApply(className, classTable.history, ParseSubroutineDec(toks, p0).value.tree, n0);
      }
    }

    /** The return type, which is checked and stepped over, and the name. */
    method CompileSubroutineHeading(kind: SubroutineKind) returns (ok: bool)
      requires Valid() && subTable.history == ThisEntries(kind)
      modifies this`pos, this`code, out, this`nextLabelNumber, subTable
      ensures Valid()
      ensures ok <==> ParseSubroutineHeading(toks, old(pos), kind).Some?
                      && StmtsResolved(SubEnv(className, classTable.history, ParseSubroutineHeading(toks, old(pos), kind).value.tree),
                                       ParseSubroutineHeading(toks, old(pos), kind).value.tree.body)
      ensures ok ==> pos == ParseSubroutineHeading(toks, old(pos), kind).value.next
                     && nextLabelNumber == old(nextLabelNumber) + UsedAll(ParseSubroutineHeading(toks, old(pos), kind).value.tree.body)
                     && code == old(code) + SubDecCode(className, classTable.history,
                                                       ParseSubroutineHeading(toks, old(pos), kind).value.tree, old(nextLabelNumber))
    {
      ghost var p0, n0, c0 := pos, nextLabelNumber, code;
      if !ReturnTypeAt(toks, pos) {
        HeadingFails(toks, p0, kind);
        return false;
      }
      Step();
      var name;
      ok, name := ConsumeIdentifier();
      if !ok {
        HeadingFails(toks, p0, kind);
        return;
      }
      HeadingIsRest(toks, p0, kind);
      assert nextLabelNumber == n0 && code == c0;
      ok := CompileSubroutineRest(kind, name);
    }

    /** The class variable declarations while the current token is static or field. */
    method CompileClassVarDecs() returns (ok: bool)
      requires Valid() && classTable.history == []
      modifies this`pos, classTable
      ensures Valid()
      ensures ok <==> ParseClassVarDecs(toks, old(pos), []).Some?
      ensures ok ==> pos == ParseClassVarDecs(toks, old(pos), []).value.next
                     && classTable.history == ClassHistory(ParseClassVarDecs(toks, old(pos), []).value.tree)
    {
      ghost var p0 := pos;
      ghost var vs: seq<ClassVarDec> := [];
      while StartsClassVarDec(toks, pos)
        invariant Valid() && p0 <= pos
        invariant ParseClassVarDecs(toks, p0, []) == ParseClassVarDecs(toks, pos, vs)
        invariant classTable.history == ClassHistory(vs)
        decreases |toks| - pos
      {
        ghost var d := ParseClassVarDec(toks, pos);
        ok := CompileClassVarDec();
        if !ok {
          return;
        }
        vs := vs + [d.value.tree];
        assert vs[..|vs| - 1] + [d.value.tree] == vs;
      }
      ok := true;
    }

    /** The subroutine declarations while the current token is constructor,
        function or method; the label counter runs on from one to the next. */
    method CompileSubroutineDecs() returns (ok: bool)
      requires Valid()
      modifies this`pos, this`code, out, this`nextLabelNumber, this`subTable
      ensures Valid()
      ensures ok <==> ParseSubroutineDecs(toks, old(pos), []).Some?
                      && SubsResolved(className, classTable.history, ParseSubroutineDecs(toks, old(pos), []).value.tree)
      ensures ok ==> pos == ParseSubroutineDecs(toks, old(pos), []).value.next
                     && nextLabelNumber == old(nextLabelNumber) + UsedBySubs(ParseSubroutineDecs(toks, old(pos), []).value.tree)
                     && code == old(code) + SubsCode(className, classTable.history, ParseSubroutineDecs(toks, old(pos), []).value.tree,
                                                     old(nextLabelNumber))
    {
      ghost var p0, c0, n0 := pos, code, nextLabelNumber;
      ghost var ss: seq<SubroutineDec> := [];
      while SubroutineKindAt(toks, pos).Some?
        invariant Valid() && p0 <= pos
        invariant ParseSubroutineDecs(toks, p0, []) == ParseSubroutineDecs(toks, pos, ss)
        invariant SubsResolved(className, classTable.history, ss)
        invariant code == c0 + SubsCode(className, classTable.history, ss, n0)
        invariant nextLabelNumber == n0 + UsedBySubs(ss)
        decreases |toks| - pos
      {
        ghost var q, n := pos, nextLabelNumber;
        ghost var d := ParseSubroutineDec(toks, q);
        ok := CompileSubroutineDec();
        if !ok {
          if d.Some? && ParseSubroutineDecs(toks, q, ss).Some?
             && SubsResolved(className, classTable.history, ParseSubroutineDecs(toks, q, ss).value.tree) {
            ResolvedNextSub(toks, q, ss, className, classTable.history);
            SubsResolvedAppend(className, classTable.history, ss, d.value.tree);
          }
          return;
        }
        SubsResolvedAppend(className, classTable.history, ss, d.value.tree);
        SubsStep(code, c0, className, classTable.history, ss, d.value.tree, n0, n);
        UsedBySubsAppend(ss, d.value.tree);
        ss := ss + [d.value.tree];
      }
      ok := true;
    }

    /** The part of compileClass after the class name. */
    method CompileClassBody() returns (ok: bool)
      requires Valid() && classTable.history == []
      modifies this`pos, this`code, out, this`nextLabelNumber, this`subTable, classTable
      ensures Valid()
      ensures ok <==> ParseClassBody(toks, old(pos), className).Some?
                      && ClassResolved(ParseClassBody(toks, old(pos), className).value.tree)
      ensures ok ==> pos == ParseClassBody(toks, old(pos), className).value.next
                     && nextLabelNumber == old(nextLabelNumber) + UsedBySubs(ParseClassBody(toks, old(pos), className).value.tree.subs)
                     && code == old(code) + SubsCode(className, ClassHistory(ParseClassBody(toks, old(pos), className).value.tree.vars),
                                                     ParseClassBody(toks, old(pos), className).value.tree.subs, old(nextLabelNumber))
    {
      ghost var p0 := pos;
      ok := ConsumeSymbol('{');
      if !ok {
        return;
      }
      ghost var p1 := pos;
      ok := CompileClassVarDecs();
      if !ok {
        return;
      }
      ghost var vs := ParseClassVarDecs(toks, p1, []).value;
      ok := CompileSubroutineDecs();
      if !ok {
        return;
      }
      ok := ConsumeSymbol('}');
    }

    /** compileClass: a fresh class table, the class keyword and the class name. */
    method CompileClass() returns (ok: bool)
      requires Valid()
      modifies this`pos, this`code, out, this`nextLabelNumber, this`subTable, this`classTable, this`className
      ensures Valid()
      ensures ok <==> ParseClass(toks, old(pos)).Some? && ClassResolved(ParseClass(toks, old(pos)).value.tree)
      ensures ok ==> pos == ParseClass(toks, old(pos)).value.next
                     && nextLabelNumber == old(nextLabelNumber) + UsedBySubs(ParseClass(toks, old(pos)).value.tree.subs)
                     && code == old(code) + SubsCode(ParseClass(toks, old(pos)).value.tree.name,
                                                     ClassHistory(ParseClass(toks, old(pos)).value.tree.vars),
                                                     ParseClass(toks, old(pos)).value.tree.subs, old(nextLabelNumber))
    {
      ghost var p0, n0, c0 := pos, nextLabelNumber, code;
      StartClassTable();
      ok := ConsumeKeyword(K.Class);
      if !ok {
        ClassFails(toks, p0);
        return;
      }
      ok, className := ConsumeIdentifier();
      if !ok {
        ClassFails(toks, p0);
        return;
      }
      ghost var q := pos;
      assert nextLabelNumber == n0 && code == c0;
      ok := CompileClassBody();
      ClassOutcome(toks, p0, q, className, ok, pos, n0, nextLabelNumber, c0, code);
    }
  }

  /** A class file from its tokens: the engine is set up on them and
      compiles one class; its output is the code of that class. */
  method Compile(tokens: seq<Token>) returns (ok: bool, lines: seq<string>)
    ensures ok <==> ParseClass(tokens, 0).Some? && ClassResolved(ParseClass(tokens, 0).value.tree)
    ensures ok ==> lines == Render(ClassCode(ParseClass(tokens, 0).value.tree))
  {
    var engine := new Engine(tokens);
    ok := engine.CompileClass();
    lines := engine.out.lines;
    if ok {
      assert engine.code == [] + ClassCode(ParseClass(tokens, 0).value.tree);
    }
  }
}
