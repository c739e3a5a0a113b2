/** What the parsed phrases the engine accepts look like. A term that steps over
    an identifier (compileTerm at an identifier followed by a token that is not
    a symbol) ends on that token, and every place that follows an expression
    requires a symbol there; so such a term never survives into an accepted
    statement, and the stack discipline of CodeGen applies to the code of
    every statement sequence, subroutine and class the engine accepts. */
module AcceptedPhrases {
  import opened Base
  import opened JackTokenizer
  import opened JackParser
  import opened JackSyntax
  import K = KeywordTypes
  import opened CodeGen
  import opened Declarations

  /** A phrase is well formed, or the token after it is not a symbol. */
  predicate Settled(toks: seq<Token>, wellFormed: bool, next: nat)
  {
    wellFormed || !KindIs(toks, next, SymbolToken)
  }

  // Expressions

  lemma {:induction false} TermSettles(toks: seq<Token>, p: nat)
    requires ParseTerm(toks, p).Some?
    ensures Settled(toks, TermWellFormed(ParseTerm(toks, p).value.tree), ParseTerm(toks, p).value.next)
    decreases |toks| - p, 3
  {
    if KindIs(toks, p, SymbolToken) {
      SymbolTermSettles(toks, p);
    } else if KindIs(toks, p, IdentifierToken) {
      IdentifierTermSettles(toks, p);
    }
  }

  lemma {:induction false} SymbolTermSettles(toks: seq<Token>, p: nat)
    requires KindIs(toks, p, SymbolToken) && ParseSymbolTerm(toks, p).Some?
    ensures Settled(toks, TermWellFormed(ParseSymbolTerm(toks, p).value.tree), ParseSymbolTerm(toks, p).value.next)
    decreases |toks| - p, 2
  {
    if FirstChar(toks, p) == Some('(') {
      ExprSettles(toks, Following(toks, p));
    } else {
      TermSettles(toks, p + 1);
    }
  }

  lemma {:induction false} IdentifierTermSettles(toks: seq<Token>, p: nat)
    requires KindIs(toks, p, IdentifierToken) && ParseIdentifierTerm(toks, p).Some?
    ensures Settled(toks, TermWellFormed(ParseIdentifierTerm(toks, p).value.tree), ParseIdentifierTerm(toks, p).value.next)
    decreases |toks| - p, 2
  {
    if p + 1 < |toks| && toks[p + 1].kind == SymbolToken {
      var c := FirstChar(toks, p + 1).value;
      if c == '[' {
        ExprSettles(toks, Following(toks, p + 1));
      } else if c == '.' || c == '(' {
        CallWellFormed(toks, p);
      }
    }
  }

  lemma {:induction false} ExprSettles(toks: seq<Token>, p: nat)
    requires ParseExpr(toks, p).Some?
    ensures Settled(toks, ExprWellFormed(ParseExpr(toks, p).value.tree), ParseExpr(toks, p).value.next)
    decreases |toks| - p, 5
  {
    var t := ParseTerm(toks, p).value;
    TermSettles(toks, p);
    ExprRestSettles(toks, t.next, Single(t.tree));
  }

  lemma {:induction false} ExprRestSettles(toks: seq<Token>, p: nat, acc: Expr)
    requires p < |toks| && ParseExprRest(toks, p, acc).Some?
    requires Settled(toks, ExprWellFormed(acc), p)
    ensures Settled(toks, ExprWellFormed(ParseExprRest(toks, p, acc).value.tree), ParseExprRest(toks, p, acc).value.next)
    decreases |toks| - p, 4
  {
    if OperatorAt(toks, p) {
      var t := ParseTerm(toks, Following(toks, p)).value;
      TermSettles(toks, Following(toks, p));
      ExprRestSettles(toks, t.next, Binary(acc, FirstChar(toks, p).value, t.tree));
    }
  }

  lemma {:induction false} ExprListSettles(toks: seq<Token>, p: nat)
    requires ParseExprList(toks, p).Some?
    ensures Settled(toks, ArgsWellFormed(ParseExprList(toks, p).value.tree), ParseExprList(toks, p).value.next)
    decreases |toks| - p, 7
  {
    if !IsSymbolAt(toks, p, ')') {
      var e := ParseExpr(toks, p).value;
      ExprSettles(toks, p);
      assert [e.tree][..0] == [];
      ExprListRestSettles(toks, e.next, [e.tree]);
    }
  }

  lemma {:induction false} ExprListRestSettles(toks: seq<Token>, p: nat, acc: seq<Expr>)
    requires p < |toks| && ParseExprListRest(toks, p, acc).Some?
    requires Settled(toks, ArgsWellFormed(acc), p)
    ensures Settled(toks, ArgsWellFormed(ParseExprListRest(toks, p, acc).value.tree), ParseExprListRest(toks, p, acc).value.next)
    decreases |toks| - p, 6
  {
    if IsSymbolAt(toks, p, ',') {
      var e := ParseExpr(toks, Following(toks, p)).value;
      ExprSettles(toks, Following(toks, p));
      assert (acc + [e.tree])[..|acc|] == acc;
      ExprListRestSettles(toks, e.next, acc + [e.tree]);
    }
  }

  /** Every call the engine parses is well formed: its argument list is closed by ')'. */
  lemma {:induction false} CallWellFormed(toks: seq<Token>, p: nat)
    requires ParseCall(toks, p).Some?
    ensures ArgsWellFormed(ParseCall(toks, p).value.tree.args)
    decreases |toks| - p, 1
  {
    var x := toks[p].text;
    var p1 := Following(toks, p);
    if FirstChar(toks, p1) == Some('.') {
      var p2 := Following(toks, p1);
      ArgsWellFormedAfter(toks, p, Some(x), toks[p2].text, Following(toks, p2));
    } else {
      ArgsWellFormedAfter(toks, p, None, x, p1);
    }
  }

  lemma ArgsWellFormedAfter(toks: seq<Token>, p: nat, qualifier: Option<string>, name: string, q: nat)
    requires p < q || KindIs(toks, q, IdentifierToken)
    requires ParseArgs(toks, p, qualifier, name, q).Some?
    ensures ArgsWellFormed(ParseArgs(toks, p, qualifier, name, q).value.tree.args)
    decreases |toks| - p, 0
  {
    ExprListSettles(toks, Following(toks, q));
  }

  // Statements

  /** Every statement the engine parses is well formed. */
  lemma {:induction false} StatementWellFormed(toks: seq<Token>, p: nat)
    requires StartsStatement(toks, p) && ParseStatement(toks, p).Some?
    ensures StmtWellFormed(ParseStatement(toks, p).value.tree)
    decreases |toks| - p, 9
  {
    var p1 := Following(toks, p);
    match KeywordAt(toks, p).value
    case While =>
      var c := ParseCondition(toks, p1).value;
      ConditionWellFormed(toks, p1);
      BlockWellFormed(toks, c.next);
    case If =>
      var c := ParseCondition(toks, p1).value;
      ConditionWellFormed(toks, p1);
      BranchesWellFormed(toks, c.next);
    case Let => LetWellFormed(toks, p);
    case Do => CallWellFormed(toks, p1);
    case Return =>
      if !KindIs(toks, p1, SymbolToken) {
        ExprSettles(toks, p1);
      }
  }

  lemma {:induction false} LetWellFormed(toks: seq<Token>, p: nat)
    requires IsKeywordAt(toks, p, K.Let) && ParseLet(toks, p).Some?
    ensures StmtWellFormed(ParseLet(toks, p).value.tree)
    decreases |toks| - p, 8
  {
    var p1 := Following(toks, p);
    var p2 := Following(toks, p1);
    var x := toks[p1].text;
    if FirstChar(toks, p2) == Some('[') {
      assert p < p2;
      var i := ParseExpr(toks, Following(toks, p2)).value;
      ExprSettles(toks, Following(toks, p2));
      LetValueWellFormed(toks, p, x, Some(i.tree), Following(toks, i.next));
    } else {
      LetValueWellFormed(toks, p, x, None, p2);
    }
  }

  lemma LetValueWellFormed(toks: seq<Token>, start: nat, x: string, index: Option<Expr>, p: nat)
    requires IsKeywordAt(toks, start, K.Let) && start <= p
    requires ParseLetValue(toks, start, x, index, p).Some?
    requires index.Some? ==> ExprWellFormed(index.value)
    ensures StmtWellFormed(ParseLetValue(toks, start, x, index, p).value.tree)
    decreases |toks| - start, 6
  {
    ExprSettles(toks, Following(toks, p));
  }

  lemma ConditionWellFormed(toks: seq<Token>, p: nat)
    requires ParseCondition(toks, p).Some?
    ensures ExprWellFormed(ParseCondition(toks, p).value.tree)
    decreases |toks| - p, 6
  {
    ExprSettles(toks, Following(toks, p));
  }

  lemma BlockWellFormed(toks: seq<Token>, p: nat)
    requires ParseBlock(toks, p).Some?
    ensures StmtsWellFormed(ParseBlock(toks, p).value.tree)
    decreases |toks| - p, 11
  {
    StatementsWellFormed(toks, Following(toks, p), []);
  }

  lemma {:induction false} BranchesWellFormed(toks: seq<Token>, p: nat)
    requires ParseBranches(toks, p).Some?
    ensures StmtsWellFormed(ParseBranches(toks, p).value.tree.thenPart)
    ensures ParseBranches(toks, p).value.tree.elsePart.Some? ==> StmtsWellFormed(ParseBranches(toks, p).value.tree.elsePart.value)
    decreases |toks| - p, 12
  {
    var t := ParseBlock(toks, p).value;
    BlockWellFormed(toks, p);
    if IsKeywordAt(toks, t.next, K.Else) {
      BlockWellFormed(toks, Following(toks, t.next));
    }
  }

  /** A statement sequence parsed after the well-formed statements acc is well formed. */
  lemma {:induction false} StatementsWellFormed(toks: seq<Token>, p: nat, acc: seq<Statement>)
    requires ParseStatementsFrom(toks, p, acc).Some? && StmtsWellFormed(acc)
    ensures StmtsWellFormed(ParseStatementsFrom(toks, p, acc).value.tree)
    decreases |toks| - p, 10
  {
    if StartsStatement(toks, p) {
      var s := ParseStatement(toks, p).value;
      StatementWellFormed(toks, p);
      assert (acc + [s.tree])[..|acc|] == acc;
      StatementsWellFormed(toks, s.next, acc + [s.tree]);
    }
  }

  // What follows for the code

  /** The statements compileStatements accepts leave the VM stack as they
      found it, whatever the first label number. */
  lemma AcceptedStatementsBalanced(env: Env, toks: seq<Token>, p: nat, n: nat)
    requires ParseStatementsFrom(toks, p, []).Some?
    requires StmtsResolved(env, ParseStatementsFrom(toks, p, []).value.tree)
    ensures NetEffect(StmtsCode(env, ParseStatementsFrom(toks, p, []).value.tree, n)) == 0
  {
    StatementsWellFormed(toks, p, []);
    StmtsBalanced(env, ParseStatementsFrom(toks, p, []).value.tree, n);
  }

  /** An accepted expression followed by a symbol pushes exactly one value. */
  lemma AcceptedExprPushesOne(env: Env, toks: seq<Token>, p: nat)
    requires ParseExpr(toks, p).Some? && ExprResolved(env, ParseExpr(toks, p).value.tree)
    requires KindIs(toks, ParseExpr(toks, p).value.next, SymbolToken)
    ensures NetEffect(ExprCode(env, ParseExpr(toks, p).value.tree)) == 1
  {
    ExprSettles(toks, p);
    ExprPushesOne(env, ParseExpr(toks, p).value.tree);
  }

  /** Without a symbol after it, an identifier is stepped over: the expression
      is accepted and its code is empty. */
  lemma SkippedIdentifier(a: string, b: string)
    ensures var toks := [Token(IdentifierToken, a, None), Token(IdentifierToken, b, None)];
      && ParseExpr(toks, 0) == Some(Parsed(Single(Skipped(a)), 1))
      && ExprCode(Env(a, Scope(map[], map[]), Scope(map[], map[])), Single(Skipped(a))) == []
  {
    var toks := [Token(IdentifierToken, a, None), Token(IdentifierToken, b, None)];
    assert ParseIdentifierTerm(toks, 0) == Some(Parsed(Skipped(a), 1));
    assert ParseTerm(toks, 0) == Some(Parsed(Skipped(a), 1));
    assert !OperatorAt(toks, 1);
    assert ParseExprRest(toks, 1, Single(Skipped(a))) == Some(Parsed(Single(Skipped(a)), 1));
  }

  // Subroutines and classes

  predicate BodiesWellFormed(subs: seq<SubroutineDec>)
  {
    forall i | 0 <= i < |subs| :: StmtsWellFormed(subs[i].body)
  }

  lemma SubroutineDecWellFormed(toks: seq<Token>, p: nat)
    requires ParseSubroutineDec(toks, p).Some?
    ensures StmtsWellFormed(ParseSubroutineDec(toks, p).value.tree.body)
  {
    var kind := SubroutineKindAt(toks, p).value;
    var p0 := Following(toks, p);
    var p1 := Following(toks, p0);
    var p2 := Following(toks, p1);
    var ps := ParseParameterList(toks, Following(toks, p2)).value;
    var b0 := Following(toks, ps.next);
    var ls := ParseVarDecs(toks, Following(toks, b0), []).value;
    assert ParseSubroutineDec(toks, p) == ParseSubroutineBody(toks, b0, kind, toks[p1].text, ps.tree);
    StatementsWellFormed(toks, ls.next, []);
  }

  lemma {:induction false} SubroutineDecsWellFormed(toks: seq<Token>, p: nat, acc: seq<SubroutineDec>)
    requires ParseSubroutineDecs(toks, p, acc).Some? && BodiesWellFormed(acc)
    ensures BodiesWellFormed(ParseSubroutineDecs(toks, p, acc).value.tree)
    decreases |toks| - p
  {
    if SubroutineKindAt(toks, p).Some? {
      var d := ParseSubroutineDec(toks, p).value;
      SubroutineDecWellFormed(toks, p);
      SubroutineDecsWellFormed(toks, d.next, acc + [d.tree]);
    }
  }

  /** Every subroutine body of a class the engine accepts leaves the VM stack
      as it found it. */
  lemma AcceptedClassBalanced(toks: seq<Token>)
    requires ParseClass(toks, 0).Some? && ClassResolved(ParseClass(toks, 0).value.tree)
    ensures var c := ParseClass(toks, 0).value.tree;
      forall i, n: nat | 0 <= i < |c.subs| ::
        NetEffect(StmtsCode(SubEnv(c.name, ClassHistory(c.vars), c.subs[i]), c.subs[i].body, n)) == 0
  {
    var c := ParseClass(toks, 0).value.tree;
    var p1 := Following(toks, 0);
    var p := Following(toks, p1);
    var vs := ParseClassVarDecs(toks, Following(toks, p), []).value;
    SubroutineDecsWellFormed(toks, vs.next, []);
    forall i, n: nat | 0 <= i < |c.subs|
      ensures NetEffect(StmtsCode(SubEnv(c.name, ClassHistory(c.vars), c.subs[i]), c.subs[i].body, n)) == 0
    {
      StmtsBalanced(SubEnv(c.name, ClassHistory(c.vars), c.subs[i]), c.subs[i].body, n);
    }
  }
}
