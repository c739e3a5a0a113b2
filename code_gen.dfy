/** The VM code the compilation engine emits for each phrase it recognises, as
    functions of the phrase, of what the two symbol tables hold and of the
    label counter, with the properties of that code. */
module CodeGen {
  import opened Base
  import K = KeywordTypes
  import ST = SymbolTables
  import opened VMWriter
  import opened JackSyntax

  /** What the engine reads of one symbol table: getVal and getClassName. */
  datatype Scope = Scope(vals: map<string, nat>, classNames: map<nat, string>)

  /** The class being compiled and its two symbol tables. */
  datatype Env = Env(className: string, sub: Scope, cls: Scope)

  /** getVal: the value bound to a name, or the sentinel -1. */
  function ValueIn(s: Scope, name: string): nat
  {
    if name in s.vals then s.vals[name] else ST.NotFound
  }

  /** A name is looked up in the subroutine table first, then in the class table. */
  function Lookup(env: Env, name: string): nat
  {
    if ValueIn(env.sub, name) != ST.NotFound then ValueIn(env.sub, name) else ValueIn(env.cls, name)
  }

  /** The kind of a name found in either table; None when it is not found or
      its value decodes to no kind (the engine rejects both). */
  function VarKind(env: Env, name: string): Option<ST.SymbolKind>
  {
    if Lookup(env, name) == ST.NotFound then None else ST.GetKind(Lookup(env, name))
  }

  /** getClassName as StringBuilder.append writes it: "null" when none is recorded. */
  function RecordedName(s: Scope, v: nat): string
  {
    if v in s.classNames then s.classNames[v] else "null"
  }

  /** The class name of a variable used as a call receiver, from the table
      that holds the variable. */
  function ReceiverClass(env: Env, name: string): string
  {
    if ValueIn(env.sub, name) != ST.NotFound then RecordedName(env.sub, ValueIn(env.sub, name))
    else RecordedName(env.cls, ValueIn(env.cls, name))
  }

  /** The segment a variable lives in: a field is reached through `this`. */
  function VarSegment(k: ST.SymbolKind): Segment
  {
    match k
    case Argument => Argument
    case Field => This
    case Local => Local
    case Static => Static
  }

  /** The segment an array read takes its base from: the kind's lower-case
      name with "field" replaced by "local". */
  function ArrayBaseSegment(k: ST.SymbolKind): Segment
  {
    match k
    case Argument => Argument
    case Field => Local
    case Local => Local
    case Static => Static
  }

  function PushVar(env: Env, name: string): seq<Command>
  {
    match VarKind(env, name)
    case Some(k) => [Push(VarSegment(k), ST.GetIndex(Lookup(env, name)))]
    case None => []
  }

  function PopVar(env: Env, name: string): seq<Command>
  {
    match VarKind(env, name)
    case Some(k) => [Pop(VarSegment(k), ST.GetIndex(Lookup(env, name)))]
    case None => []
  }

  function PushArrayBase(env: Env, name: string): seq<Command>
  {
    match VarKind(env, name)
    case Some(k) => [Push(ArrayBaseSegment(k), ST.GetIndex(Lookup(env, name)))]
    case None => []
  }

  /** The operators of an expression, and the unary operators of a term. */
  predicate IsOperator(c: char) { c in "+-*/&|<>=" }
  predicate IsUnaryOperator(c: char) { c in "-~" }

  predicate IsKeywordConstant(k: K.Keyword) { k == K.False || k == K.True || k == K.Null || k == K.This }

  function OpCode(op: char): seq<Command>
  {
    if op == '+' then [Add]
    else if op == '-' then [Sub]
    else if op == '*' then [Mult]
    else if op == '/' then [Div]
    else if op == '&' then [And]
    else if op == '|' then [Or]
    else if op == '<' then [Lt]
    else if op == '>' then [Gt]
    else if op == '=' then [Eq]
    else []
  }

  function UnaryCode(op: char): seq<Command>
  {
    if op == '-' then [Neg] else if op == '~' then [Not] else []
  }

  function KeywordConstCode(k: K.Keyword): seq<Command>
  {
    match k
    case False => [Push(Constant, 0)]
    case True => [Push(Constant, 1), Neg]
    case Null => [Push(Constant, 0)]
    case This => [Push(Pointer, 0)]
    case _ => []
  }

  /** One push of the code unit and one String.appendChar per UTF-16 code unit. */
  function CharsCode(us: seq<nat>): seq<Command>
  {
    if us == [] then []
    else CharsCode(us[..|us| - 1]) + [Push(Constant, us[|us| - 1]), Call("String.appendChar", 2)]
  }

  /** A string constant, counted and spelled in the UTF-16 units of the Java string. */
  function StringCode(s: string): seq<Command>
  {
    [Push(Constant, |Utf16(s)|), Call("String.new", 1)] + CharsCode(Utf16(s))
  }

  function TermCode(env: Env, t: Term): seq<Command>
    decreases t
  {
    match t
    case IntLit(n) => [Push(Constant, n)]
    case StringLit(s) => StringCode(s)
    case KeywordLit(k) => KeywordConstCode(k)
    case Paren(e) => ExprCode(env, e)
    case Unary(op, u) => TermCode(env, u) + UnaryCode(op)
    case VarRef(x) => PushVar(env, x)
    case ArrayRef(x, i) => PushArrayBase(env, x) + ExprCode(env, i) + [Add, Pop(Pointer, 1), Push(That, 0)]
    case CallRef(c) => CallCode(env, c)
    case Skipped(_) => []
  }

  function ExprCode(env: Env, e: Expr): seq<Command>
    decreases e
  {
    match e
    case Single(t) => TermCode(env, t)
    case Binary(l, op, r) => ExprCode(env, l) + TermCode(env, r) + OpCode(op)
  }

  function ArgsCode(env: Env, args: seq<Expr>): seq<Command>
    decreases args
  {
    if args == [] then [] else ArgsCode(env, args[..|args| - 1]) + ExprCode(env, args[|args| - 1])
  }

  /** A call is a method call (gets one extra argument) unless it is
      qualified by a name found in neither table. */
  predicate IsMethodCall(env: Env, c: SubroutineCall)
  {
    c.qualifier.None? || Lookup(env, c.qualifier.value) != ST.NotFound
  }

  function ReceiverCode(env: Env, c: SubroutineCall): seq<Command>
  {
    match c.qualifier
    case None => [Push(Pointer, 0)]
    case Some(q) => if Lookup(env, q) != ST.NotFound then PushVar(env, q) else []
  }

  function CallName(env: Env, c: SubroutineCall): string
  {
    match c.qualifier
    case None => env.className + "." + c.name
    case Some(q) => (if Lookup(env, q) != ST.NotFound then ReceiverClass(env, q) else q) + "." + c.name
  }

  function CallCode(env: Env, c: SubroutineCall): seq<Command>
    decreases c
  {
    ReceiverCode(env, c) + ArgsCode(env, c.args)
    + [Call(CallName(env, c), |c.args| + if IsMethodCall(env, c) then 1 else 0)]
  }

  /** generateLabel's n-th label. */
  function LabelName(n: nat): string
  {
    "L" + NatToString(n)
  }

  /** How many labels a statement draws. */
  function Used(s: Statement): nat
    decreases s
  {
    match s
    case WhileStmt(_, b) => 2 + UsedAll(b)
    case IfStmt(_, t) => 1 + UsedAll(t)
    case IfElseStmt(_, t, e) => 2 + UsedAll(t) + UsedAll(e)
    case _ => 0
  }

  function UsedAll(ss: seq<Statement>): nat
    decreases ss
  {
    if ss == [] then 0 else UsedAll(ss[..|ss| - 1]) + Used(ss[|ss| - 1])
  }

  /** The code of a statement whose first label is number n. */
  function StmtCode(env: Env, s: Statement, n: nat): seq<Command>
    decreases s
  {
    match s
    case WhileStmt(c, b) =>
      [Label(LabelName(n))] + ExprCode(env, c) + [Not, IfGoto(LabelName(n + 1))]
      + StmtsCode(env, b, n + 2) + [Goto(LabelName(n)), Label(LabelName(n + 1))]
    case IfStmt(c, t) =>
      ExprCode(env, c) + [Not, IfGoto(LabelName(n))] + StmtsCode(env, t, n + 1) + [Label(LabelName(n))]
    case IfElseStmt(c, t, e) =>
      var m := n + 1 + UsedAll(t);
      ExprCode(env, c) + [Not, IfGoto(LabelName(n))] + StmtsCode(env, t, n + 1)
      + [Goto(LabelName(m)), Label(LabelName(n))] + StmtsCode(env, e, m + 1) + [Label(LabelName(m))]
    case LetStmt(x, r) => ExprCode(env, r) + PopVar(env, x)
    case LetIndexedStmt(x, i, r) =>
      PushVar(env, x) + ExprCode(env, i) + [Add, Pop(Temp, 0)]
      + ExprCode(env, r) + [Push(Temp, 0), Pop(Pointer, 1), Pop(That, 0)]
    case DoStmt(c) => CallCode(env, c) + [Pop(Temp, 0)]
    case ReturnValue(e) => ExprCode(env, e) + [Return]
    case ReturnVoid => [Push(Constant, 0), Return]
  }

  function StmtsCode(env: Env, ss: seq<Statement>, n: nat): seq<Command>
    decreases ss
  {
    if ss == [] then []
    else StmtsCode(env, ss[..|ss| - 1], n) + StmtCode(env, ss[|ss| - 1], n + UsedAll(ss[..|ss| - 1]))
  }

  /** What follows `function C.f n`: a constructor allocates its object, a
      method binds `this` to its first argument. */
  function Prologue(kind: SubroutineKind, nFields: nat): seq<Command>
  {
    match kind
    case ConstructorSub => [Push(Constant, nFields), Call("Memory.alloc", 1), Pop(Pointer, 0)]
    case MethodSub => [Push(Argument, 0), Pop(Pointer, 0)]
    case FunctionSub => []
  }

  function SubroutineCode(env: Env, kind: SubroutineKind, name: string, nLocals: nat, nFields: nat,
                          body: seq<Statement>, n: nat): seq<Command>
  {
    [Function(env.className + "." + name, nLocals)] + Prologue(kind, nFields) + StmtsCode(env, body, n)
  }

  // Labels

  /** A piece of code defines no label. */
  predicate NoLabelDefs(cs: seq<Command>)
  {
    forall i | 0 <= i < |cs| :: !cs[i].Label?
  }

  lemma {:induction false} CharsHaveNoLabels(us: seq<nat>)
    ensures NoLabelDefs(CharsCode(us))
    decreases |us|
  {
    if us != [] {
      CharsHaveNoLabels(us[..|us| - 1]);
    }
  }

  /** Expressions never define labels. */
  lemma {:induction false} TermHasNoLabels(env: Env, t: Term)
    ensures NoLabelDefs(TermCode(env, t))
    decreases t
  {
    match t
    case StringLit(s) => CharsHaveNoLabels(Utf16(s));
    case Paren(e) => ExprHasNoLabels(env, e);
    case Unary(_, u) => TermHasNoLabels(env, u);
    case ArrayRef(_, i) => ExprHasNoLabels(env, i);
    case CallRef(c) => CallHasNoLabels(env, c);
    case _ =>
  }

  lemma {:induction false} ExprHasNoLabels(env: Env, e: Expr)
    ensures NoLabelDefs(ExprCode(env, e))
    decreases e
  {
    match e
    case Single(t) => TermHasNoLabels(env, t);
    case Binary(l, _, r) => ExprHasNoLabels(env, l); TermHasNoLabels(env, r);
  }

  lemma {:induction false} ArgsHaveNoLabels(env: Env, args: seq<Expr>)
    ensures NoLabelDefs(ArgsCode(env, args))
    decreases args
  {
    if args != [] {
      ArgsHaveNoLabels(env, args[..|args| - 1]);
      ExprHasNoLabels(env, args[|args| - 1]);
    }
  }

  lemma {:induction false} CallHasNoLabels(env: Env, c: SubroutineCall)
    ensures NoLabelDefs(CallCode(env, c))
    decreases c
  {
    ArgsHaveNoLabels(env, c.args);
  }

  /** The number a label name carries: the decimal value of what follows its first character. */
  function LabelNumber(s: string): nat
  {
    if |s| >= 1 && AllDigits(s[1..]) then DecimalValue(s[1..]) else 0
  }

  lemma LabelNumberOf(k: nat)
    ensures LabelNumber(LabelName(k)) == k
  {
    assert LabelName(k)[1..] == NatToString(k);
    DecimalValueOfNatToString(k);
  }

  /** Different label numbers give different label names. */
  lemma LabelNameInjective(j: nat, k: nat)
    ensures LabelName(j) == LabelName(k) <==> j == k
  {
    LabelNumberOf(j);
    LabelNumberOf(k);
  }

  /** The names of labels a up to b - 1. */
  function Names(a: nat, b: nat): set<string>
    decreases b
  {
    if b <= a then {} else Names(a, b - 1) + {LabelName(b - 1)}
  }

  lemma {:induction false} NamesMembers(a: nat, b: nat)
    ensures forall x :: x in Names(a, b) <==> a <= LabelNumber(x) < b && x == LabelName(LabelNumber(x))
    decreases b
  {
    if b > a {
      NamesMembers(a, b - 1);
      LabelNumberOf(b - 1);
      assert Names(a, b) == Names(a, b - 1) + {LabelName(b - 1)};
      forall x
        ensures x in Names(a, b) <==> a <= LabelNumber(x) < b && x == LabelName(LabelNumber(x))
      {
        if x == LabelName(b - 1) {
          assert LabelNumber(x) == b - 1;
        }
      }
    }
  }

  lemma NamesSplit(a: nat, b: nat, c: nat)
    requires a <= b <= c
    ensures Names(a, b) !! Names(b, c)
    ensures Names(a, b) + Names(b, c) == Names(a, c)
  {
    NamesMembers(a, b);
    NamesMembers(b, c);
    NamesMembers(a, c);
  }

  /** Label a, just below the names a + 1 up to c - 1. */
  lemma NameBelow(a: nat, c: nat)
    requires a < c
    ensures {LabelName(a)} !! Names(a + 1, c)
    ensures {LabelName(a)} + Names(a + 1, c) == Names(a, c)
  {
    NamesSplit(a, a + 1, c);
    assert Names(a, a + 1) == {LabelName(a)};
  }

  /** Label m, between the names a up to m - 1 and m + 1 up to d - 1. */
  lemma NameBetween(a: nat, m: nat, d: nat)
    requires a <= m < d
    ensures Names(a, m) !! Names(m + 1, d)
    ensures (Names(a, m) + Names(m + 1, d)) !! {LabelName(m)}
    ensures Names(a, m) + Names(m + 1, d) + {LabelName(m)} == Names(a, d)
  {
    NamesSplit(a, m, d);
    NameBelow(m, d);
  }

  /** Every label the code defines has a name in `names`, and no label is
      defined twice. */
  predicate LabelsFresh(cs: seq<Command>, names: set<string>)
  {
    && (forall i | 0 <= i < |cs| && cs[i].Label? :: cs[i].target in names)
    && (forall i, j | 0 <= i < j < |cs| && cs[i].Label? && cs[j].Label? :: cs[i].target != cs[j].target)
  }

  lemma NoLabelsFresh(cs: seq<Command>)
    requires NoLabelDefs(cs)
    ensures LabelsFresh(cs, {})
  {
  }

  /** Code defining labels from disjoint sets of names, put together. */
  lemma JoinFresh(x: seq<Command>, xs: set<string>, y: seq<Command>, ys: set<string>)
    requires LabelsFresh(x, xs) && LabelsFresh(y, ys) && xs !! ys
    ensures LabelsFresh(x + y, xs + ys)
  {
    forall i, j | 0 <= i < j < |x + y| && (x + y)[i].Label? && (x + y)[j].Label?
      ensures (x + y)[i].target != (x + y)[j].target
    {
      if i < |x| <= j {
        assert (x + y)[i] == x[i] && (x + y)[j] == y[j - |x|];
        assert x[i].target in xs && y[j - |x|].target in ys;
      }
    }
  }

  /** The shape of a while loop's code: a label, the test, the body, the jump back, a label. */
  lemma WhileShapeFresh(ev: seq<Command>, body: seq<Command>, n: nat, e: nat)
    requires n + 2 <= e && NoLabelDefs(ev) && LabelsFresh(body, Names(n + 2, e))
    ensures LabelsFresh([Label(LabelName(n))] + ev + [Not, IfGoto(LabelName(n + 1))]
                        + body + [Goto(LabelName(n)), Label(LabelName(n + 1))], Names(n, e))
  {
    var head := [Label(LabelName(n))] + ev + [Not, IfGoto(LabelName(n + 1))];
    var tail := [Goto(LabelName(n)), Label(LabelName(n + 1))];
    JoinFresh([Label(LabelName(n))] + ev, {LabelName(n)}, [Not, IfGoto(LabelName(n + 1))], {});
    NameBelow(n + 1, e);
    JoinFresh(body, Names(n + 2, e), tail, {LabelName(n + 1)});
    NameBelow(n, e);
    assert head + body + tail == head + (body + tail);
    JoinFresh(head, {LabelName(n)} + {}, body + tail, Names(n + 2, e) + {LabelName(n + 1)});
    assert {LabelName(n)} + {} + (Names(n + 2, e) + {LabelName(n + 1)}) == Names(n, e);
  }

  /** The test of an if, its then-branch, and what follows the branch (`after`, defining label n). */
  lemma BranchShapeFresh(ev: seq<Command>, tb: seq<Command>, after: seq<Command>, n: nat, m: nat)
    requires n + 1 <= m && NoLabelDefs(ev) && LabelsFresh(tb, Names(n + 1, m))
    requires LabelsFresh(after, {LabelName(n)})
    ensures LabelsFresh(ev + [Not, IfGoto(LabelName(n))] + tb + after, Names(n, m))
  {
    var head := ev + [Not, IfGoto(LabelName(n))];
    NoLabelsFresh(head);
    JoinFresh(head, {}, tb, Names(n + 1, m));
    NameBelow(n, m);
    JoinFresh(head + tb, {} + Names(n + 1, m), after, {LabelName(n)});
    assert {} + Names(n + 1, m) + {LabelName(n)} == Names(n, m);
  }

  /** The else-branch and the end label after the first half of an if-else. */
  lemma ElseHalfFresh(first: seq<Command>, eb: seq<Command>, n: nat, m: nat, z: nat)
    requires n <= m < z
    requires LabelsFresh(first, Names(n, m)) && LabelsFresh(eb, Names(m + 1, z))
    ensures LabelsFresh(first + eb + [Label(LabelName(m))], Names(n, z))
  {
    NameBetween(n, m, z);
    JoinFresh(first, Names(n, m), eb, Names(m + 1, z));
    JoinFresh(first + eb, Names(n, m) + Names(m + 1, z), [Label(LabelName(m))], {LabelName(m)});
  }

  /** A statement whose first label is number n defines only the labels
      numbered n up to n + Used(s) - 1, none of them twice. */
  lemma {:induction false} StmtLabelsFresh(env: Env, s: Statement, n: nat)
    ensures LabelsFresh(StmtCode(env, s, n), Names(n, n + Used(s)))
    decreases s, 2
  {
    if s.WhileStmt? {
      WhileLabelsFresh(env, s, n);
    } else if s.IfStmt? {
      IfLabelsFresh(env, s, n);
    } else if s.IfElseStmt? {
      IfElseLabelsFresh(env, s, n);
    } else {
      SimpleLabelsFresh(env, s, n);
    }
  }

  lemma {:induction false} WhileLabelsFresh(env: Env, s: Statement, n: nat)
    requires s.WhileStmt?
    ensures LabelsFresh(StmtCode(env, s, n), Names(n, n + Used(s)))
    decreases s, 0
  {
    var ev, body := ExprCode(env, s.cond), StmtsCode(env, s.body, n + 2);
    var e := n + 2 + UsedAll(s.body);
    assert StmtCode(env, s, n) == [Label(LabelName(n))] + ev + [Not, IfGoto(LabelName(n + 1))]
                                 + body + [Goto(LabelName(n)), Label(LabelName(n + 1))];
    assert n + Used(s) == e;
    ExprHasNoLabels(env, s.cond);
    StmtsLabelsFresh(env, s.body, n + 2);
    WhileShapeFresh(ev, body, n, e);
  }

  lemma {:induction false} IfLabelsFresh(env: Env, s: Statement, n: nat)
    requires s.IfStmt?
    ensures LabelsFresh(StmtCode(env, s, n), Names(n, n + Used(s)))
    decreases s, 0
  {
    var ev, tb := ExprCode(env, s.cond), StmtsCode(env, s.thenPart, n + 1);
    var e := n + 1 + UsedAll(s.thenPart);
    assert StmtCode(env, s, n) == ev + [Not, IfGoto(LabelName(n))] + tb + [Label(LabelName(n))];
    assert n + Used(s) == e;
    ExprHasNoLabels(env, s.cond);
    StmtsLabelsFresh(env, s.thenPart, n + 1);
    BranchShapeFresh(ev, tb, [Label(LabelName(n))], n, e);
  }

  /** The code of an if-else up to the start of its else-branch. */
  function IfElseFirstHalf(env: Env, s: Statement, n: nat): seq<Command>
    requires s.IfElseStmt?
  {
    ExprCode(env, s.cond) + [Not, IfGoto(LabelName(n))] + StmtsCode(env, s.thenPart, n + 1)
    + [Goto(LabelName(n + 1 + UsedAll(s.thenPart))), Label(LabelName(n))]
  }

  lemma {:induction false} IfElseFirstHalfFresh(env: Env, s: Statement, n: nat)
    requires s.IfElseStmt?
    ensures LabelsFresh(IfElseFirstHalf(env, s, n), Names(n, n + 1 + UsedAll(s.thenPart)))
    decreases s, 0
  {
    var m := n + 1 + UsedAll(s.thenPart);
    ExprHasNoLabels(env, s.cond);
    StmtsLabelsFresh(env, s.thenPart, n + 1);
    BranchShapeFresh(ExprCode(env, s.cond), StmtsCode(env, s.thenPart, n + 1),
                     [Goto(LabelName(m)), Label(LabelName(n))], n, m);
  }

  lemma {:induction false} IfElseLabelsFresh(env: Env, s: Statement, n: nat)
    requires s.IfElseStmt?
    ensures LabelsFresh(StmtCode(env, s, n), Names(n, n + Used(s)))
    decreases s, 1
  {
    var m := n + 1 + UsedAll(s.thenPart);
    var z := m + 1 + UsedAll(s.elsePart);
    var first, eb := IfElseFirstHalf(env, s, n), StmtsCode(env, s.elsePart, m + 1);
    assert StmtCode(env, s, n) == first + eb + [Label(LabelName(m))];
    assert n + Used(s) == z;
    IfElseFirstHalfFresh(env, s, n);
    StmtsLabelsFresh(env, s.elsePart, m + 1);
    ElseHalfFresh(first, eb, n, m, z);
  }

  /** let, do and return define no label and draw none. */
  lemma SimpleLabelsFresh(env: Env, s: Statement, n: nat)
    requires !s.WhileStmt? && !s.IfStmt? && !s.IfElseStmt?
    ensures NoLabelDefs(StmtCode(env, s, n)) && Used(s) == 0
    ensures LabelsFresh(StmtCode(env, s, n), Names(n, n + Used(s)))
  {
    match s {
      case LetStmt(x, r) => ExprHasNoLabels(env, r);
      case LetIndexedStmt(x, i, r) => ExprHasNoLabels(env, i); ExprHasNoLabels(env, r);
      case DoStmt(c) => CallHasNoLabels(env, c);
      case ReturnValue(e) => ExprHasNoLabels(env, e);
      case ReturnVoid =>
    }
  }

  lemma {:induction false} StmtsLabelsFresh(env: Env, ss: seq<Statement>, n: nat)
    ensures LabelsFresh(StmtsCode(env, ss, n), Names(n, n + UsedAll(ss)))
    decreases ss, 3
  {
    if ss != [] {
      var init := ss[..|ss| - 1];
      var k := n + UsedAll(init);
      assert StmtsCode(env, ss, n) == StmtsCode(env, init, n) + StmtCode(env, ss[|ss| - 1], k);
      assert n + UsedAll(ss) == k + Used(ss[|ss| - 1]);
      StmtsLabelsFresh(env, init, n);
      StmtLabelsFresh(env, ss[|ss| - 1], k);
      NamesSplit(n, k, k + Used(ss[|ss| - 1]));
      JoinFresh(StmtsCode(env, init, n), Names(n, k), StmtCode(env, ss[|ss| - 1], k), Names(k, k + Used(ss[|ss| - 1])));
    }
  }

  /** A subroutine's code defines the labels its body draws, each once. */
  lemma SubroutineLabelsFresh(env: Env, kind: SubroutineKind, name: string, nLocals: nat, nFields: nat,
                              body: seq<Statement>, n: nat)
    ensures LabelsFresh(SubroutineCode(env, kind, name, nLocals, nFields, body, n), Names(n, n + UsedAll(body)))
  {
    var head := [Function(env.className + "." + name, nLocals)] + Prologue(kind, nFields);
    NoLabelsFresh(head);
    StmtsLabelsFresh(env, body, n);
    JoinFresh(head, {}, StmtsCode(env, body, n), Names(n, n + UsedAll(body)));
    assert {} + Names(n, n + UsedAll(body)) == Names(n, n + UsedAll(body));
  }

  // Strings

  /** The characters are appended one code unit at a time, in order. */
  lemma {:induction false} CharsCodeSpells(us: seq<nat>)
    ensures |CharsCode(us)| == 2 * |us|
    ensures forall i | 0 <= i < |us| ::
              CharsCode(us)[2 * i] == Push(Constant, us[i]) && CharsCode(us)[2 * i + 1] == Call("String.appendChar", 2)
    decreases |us|
  {
    if us != [] {
      var init := us[..|us| - 1];
      CharsCodeSpells(init);
      forall i | 0 <= i < |us|
        ensures CharsCode(us)[2 * i] == Push(Constant, us[i]) && CharsCode(us)[2 * i + 1] == Call("String.appendChar", 2)
      {
        if i < |init| {
          assert us[i] == init[i];
        }
      }
    }
  }

  /** A string constant is built by String.new with its length() in UTF-16
      units, then one appendChar per unit, in order. */
  lemma StringCodeSpells(s: string)
    ensures var us := Utf16(s);
      && |StringCode(s)| == 2 + 2 * |us|
      && StringCode(s)[0] == Push(Constant, |us|) && StringCode(s)[1] == Call("String.new", 1)
      && (forall i | 0 <= i < |us| ::
            StringCode(s)[2 + 2 * i] == Push(Constant, us[i]) && StringCode(s)[3 + 2 * i] == Call("String.appendChar", 2))
  {
    var us := Utf16(s);
    CharsCodeSpells(us);
    assert forall i | 0 <= i < |us| :: StringCode(s)[2 + 2 * i] == CharsCode(us)[2 * i] && StringCode(s)[3 + 2 * i] == CharsCode(us)[2 * i + 1];
  }

  /** The constants appended read back, as UTF-16, as the string constant. */
  lemma StringCodeDecodes(s: string, units: seq<nat>)
    requires |units| == |Utf16(s)|
    requires forall i | 0 <= i < |units| :: 2 + 2 * i < |StringCode(s)| && StringCode(s)[2 + 2 * i] == Push(Constant, units[i])
    ensures FromUtf16(units) == Some(s)
  {
    StringCodeSpells(s);
    assert units == Utf16(s);
    Utf16RoundTrip(s);
  }

  /** A character outside the Basic Multilingual Plane counts two units and is
      appended as its surrogate pair. */
  lemma StringCodeSupplementary()
    ensures StringCode("\U{1F600}") ==
      [Push(Constant, 2), Call("String.new", 1),
       Push(Constant, 0xD83D), Call("String.appendChar", 2),
       Push(Constant, 0xDE00), Call("String.appendChar", 2)]
  {
    var s := "\U{1F600}";
    assert CharUnits(s[0]) == [0xD83D, 0xDE00];
    assert Utf16(s) == CharUnits(s[0]) + Utf16(s[1..]);
    var us: seq<nat> := [0xD83D, 0xDE00];
    assert us[..1][..0] == [];
    assert CharsCode(us[..1]) == [Push(Constant, 0xD83D), Call("String.appendChar", 2)];
  }

  /** When every character lies below 0x10000 the length is the character
      count and each character's code is pushed. */
  lemma StringCodeBmp(s: string)
    requires forall i | 0 <= i < |s| :: s[i] as int < 0x10000
    ensures |StringCode(s)| == 2 + 2 * |s| && StringCode(s)[0] == Push(Constant, |s|)
    ensures forall i | 0 <= i < |s| :: StringCode(s)[2 + 2 * i] == Push(Constant, s[i] as nat)
  {
    Utf16Bmp(s);
    StringCodeSpells(s);
  }

  // Stack discipline

  /** How a command changes the height of the VM stack. */
  function Effect(c: Command): int
  {
    match c
    case Push(_, _) => 1
    case Pop(_, _) => -1
    case Call(_, nArgs) => 1 - nArgs
    case IfGoto(_) => -1
    case Return => -1
    case Neg => 0
    case Not => 0
    case Label(_) => 0
    case Goto(_) => 0
    case Function(_, _) => 0
    case _ => -1
  }

  function NetEffect(cs: seq<Command>): int
  {
    if cs == [] then 0 else NetEffect(cs[..|cs| - 1]) + Effect(cs[|cs| - 1])
  }

  lemma {:induction false} NetEffectAppend(a: seq<Command>, b: seq<Command>)
    ensures NetEffect(a + b) == NetEffect(a) + NetEffect(b)
    decreases |b|
  {
    if b != [] {
      assert (a + b)[..|a + b| - 1] == a + b[..|b| - 1];
      NetEffectAppend(a, b[..|b| - 1]);
    } else {
      assert a + b == a;
    }
  }

  lemma NetEffectShort(a: Command, b: Command, c: Command)
    ensures NetEffect([a]) == Effect(a)
    ensures NetEffect([a, b]) == Effect(a) + Effect(b)
    ensures NetEffect([a, b, c]) == Effect(a) + Effect(b) + Effect(c)
  {
    assert [a, b][..1] == [a];
    assert [a, b, c][..2] == [a, b];
  }

  lemma OpCodeEffect(op: char)
    requires IsOperator(op)
    ensures NetEffect(OpCode(op)) == -1
  {
    NetEffectShort(Add, Add, Add);
    NetEffectShort(Sub, Add, Add);
    NetEffectShort(Mult, Add, Add);
    NetEffectShort(Div, Add, Add);
    NetEffectShort(And, Add, Add);
    NetEffectShort(Or, Add, Add);
    NetEffectShort(Lt, Add, Add);
    NetEffectShort(Gt, Add, Add);
    NetEffectShort(Eq, Add, Add);
  }

  lemma UnaryCodeEffect(op: char)
    requires IsUnaryOperator(op)
    ensures NetEffect(UnaryCode(op)) == 0
  {
    NetEffectShort(Neg, Neg, Neg);
    NetEffectShort(Not, Neg, Neg);
  }

  lemma KeywordConstPushesOne(k: K.Keyword)
    requires IsKeywordConstant(k)
    ensures NetEffect(KeywordConstCode(k)) == 1
  {
    if k == K.True {
      NetEffectShort(Push(Constant, 1), Neg, Neg);
    } else if k == K.This {
      NetEffectShort(Push(Pointer, 0), Neg, Neg);
    } else {
      NetEffectShort(Push(Constant, 0), Neg, Neg);
    }
  }

  lemma StringPushesOne(s: string)
    ensures NetEffect(StringCode(s)) == 1
  {
    CharsBalanced(Utf16(s));
    NetEffectShort(Push(Constant, |Utf16(s)|), Call("String.new", 1), Neg);
    NetEffectAppend([Push(Constant, |Utf16(s)|), Call("String.new", 1)], CharsCode(Utf16(s)));
  }

  /** The syntactic side of an accepted phrase: every keyword constant and
      operator is one the grammar allows, and no identifier was stepped over. */
  predicate TermWellFormed(t: Term)
    decreases t
  {
    match t
    case IntLit(_) => true
    case StringLit(_) => true
    case KeywordLit(k) => IsKeywordConstant(k)
    case Paren(e) => ExprWellFormed(e)
    case Unary(op, u) => IsUnaryOperator(op) && TermWellFormed(u)
    case VarRef(_) => true
    case ArrayRef(_, i) => ExprWellFormed(i)
    case CallRef(c) => ArgsWellFormed(c.args)
    case Skipped(_) => false
  }

  predicate ExprWellFormed(e: Expr)
    decreases e
  {
    match e
    case Single(t) => TermWellFormed(t)
    case Binary(l, op, r) => ExprWellFormed(l) && IsOperator(op) && TermWellFormed(r)
  }

  predicate ArgsWellFormed(args: seq<Expr>)
    decreases args
  {
    args == [] || (ArgsWellFormed(args[..|args| - 1]) && ExprWellFormed(args[|args| - 1]))
  }

  /** A phrase whose names resolve and which is well formed. */
  predicate TermOk(env: Env, t: Term) { TermResolved(env, t) && TermWellFormed(t) }
  predicate ExprOk(env: Env, e: Expr) { ExprResolved(env, e) && ExprWellFormed(e) }
  predicate ArgsOk(env: Env, args: seq<Expr>) { ArgsResolved(env, args) && ArgsWellFormed(args) }
  predicate CallOk(env: Env, c: SubroutineCall) { CallResolved(env, c) && ArgsWellFormed(c.args) }

  // Name resolution

  /** The names the engine looks up in a term are found, with a kind: a
      variable read, an array base, and a call receiver found in a table.
      The engine rejects the phrase otherwise. A skipped identifier is not
      looked up. */
  predicate TermResolved(env: Env, t: Term)
    decreases t
  {
    match t
    case Paren(e) => ExprResolved(env, e)
    case Unary(_, u) => TermResolved(env, u)
    case VarRef(x) => VarKind(env, x).Some?
    case ArrayRef(x, i) => VarKind(env, x).Some? && ExprResolved(env, i)
    case CallRef(c) => CallResolved(env, c)
    case _ => true
  }

  predicate ExprResolved(env: Env, e: Expr)
    decreases e
  {
    match e
    case Single(t) => TermResolved(env, t)
    case Binary(l, _, r) => ExprResolved(env, l) && TermResolved(env, r)
  }

  predicate ArgsResolved(env: Env, args: seq<Expr>)
    decreases args
  {
    args == [] || (ArgsResolved(env, args[..|args| - 1]) && ExprResolved(env, args[|args| - 1]))
  }

  predicate CallResolved(env: Env, c: SubroutineCall)
    decreases c
  {
    (c.qualifier.Some? && Lookup(env, c.qualifier.value) != ST.NotFound ==> VarKind(env, c.qualifier.value).Some?)
    && ArgsResolved(env, c.args)
  }

  /** A let statement also looks up the variable it assigns. */
  predicate StmtResolved(env: Env, s: Statement)
    decreases s
  {
    match s
    case WhileStmt(c, b) => ExprResolved(env, c) && StmtsResolved(env, b)
    case IfStmt(c, t) => ExprResolved(env, c) && StmtsResolved(env, t)
    case IfElseStmt(c, t, e) => ExprResolved(env, c) && StmtsResolved(env, t) && StmtsResolved(env, e)
    case LetStmt(x, r) => VarKind(env, x).Some? && ExprResolved(env, r)
    case LetIndexedStmt(x, i, r) => VarKind(env, x).Some? && ExprResolved(env, i) && ExprResolved(env, r)
    case DoStmt(c) => CallResolved(env, c)
    case ReturnValue(e) => ExprResolved(env, e)
    case ReturnVoid => true
  }

  predicate StmtsResolved(env: Env, ss: seq<Statement>)
    decreases ss
  {
    ss == [] || (StmtsResolved(env, ss[..|ss| - 1]) && StmtResolved(env, ss[|ss| - 1]))
  }

  /** An accepted term, expression or call leaves exactly one value on the stack. */
  lemma {:induction false} TermPushesOne(env: Env, t: Term)
    requires TermOk(env, t)
    ensures NetEffect(TermCode(env, t)) == 1
    decreases t
  {
    match t
    case IntLit(n) => NetEffectShort(Push(Constant, n), Neg, Neg);
    case StringLit(s) => StringPushesOne(s);
    case KeywordLit(k) => KeywordConstPushesOne(k);
    case Paren(e) => ExprPushesOne(env, e);
    case Unary(op, u) => TermPushesOne(env, u); UnaryCodeEffect(op); NetEffectAppend(TermCode(env, u), UnaryCode(op));
    case VarRef(x) => NetEffectShort(PushVar(env, x)[0], Neg, Neg);
    case ArrayRef(x, i) => ExprPushesOne(env, i); ArrayReadPushesOne(env, x, ExprCode(env, i));
    case CallRef(c) => CallPushesOne(env, c);
  }

  /** Reading a[i]: the base, the index, then the read through that. */
  lemma ArrayReadPushesOne(env: Env, x: string, ic: seq<Command>)
    requires VarKind(env, x).Some? && NetEffect(ic) == 1
    ensures NetEffect(PushArrayBase(env, x) + ic + [Add, Pop(Pointer, 1), Push(That, 0)]) == 1
  {
    NetEffectShort(PushArrayBase(env, x)[0], Neg, Neg);
    NetEffectShort(Add, Pop(Pointer, 1), Push(That, 0));
    NetEffectAppend(PushArrayBase(env, x), ic);
    NetEffectAppend(PushArrayBase(env, x) + ic, [Add, Pop(Pointer, 1), Push(That, 0)]);
  }

  lemma {:induction false} ExprPushesOne(env: Env, e: Expr)
    requires ExprOk(env, e)
    ensures NetEffect(ExprCode(env, e)) == 1
    decreases e
  {
    match e
    case Single(t) => TermPushesOne(env, t);
    case Binary(l, op, r) =>
      ExprPushesOne(env, l);
      TermPushesOne(env, r);
      OpCodeEffect(op);
      NetEffectAppend(ExprCode(env, l), TermCode(env, r));
      NetEffectAppend(ExprCode(env, l) + TermCode(env, r), OpCode(op));
  }

  lemma {:induction false} ArgsPushOneEach(env: Env, args: seq<Expr>)
    requires ArgsOk(env, args)
    ensures NetEffect(ArgsCode(env, args)) == |args|
    decreases args
  {
    if args != [] {
      ArgsPushOneEach(env, args[..|args| - 1]);
      ExprPushesOne(env, args[|args| - 1]);
      NetEffectAppend(ArgsCode(env, args[..|args| - 1]), ExprCode(env, args[|args| - 1]));
    }
  }

  /** The argument count a call passes is the number of values pushed for
      it: the receiver, when there is one, and one per argument. */
  lemma {:induction false} CallPushesOne(env: Env, c: SubroutineCall)
    requires CallOk(env, c)
    ensures var nArgs := CallCode(env, c)[|CallCode(env, c)| - 1].nArgs;
      NetEffect(ReceiverCode(env, c) + ArgsCode(env, c.args)) == nArgs
    ensures NetEffect(CallCode(env, c)) == 1
    decreases c, 0
  {
    ArgsPushOneEach(env, c.args);
    var call := Call(CallName(env, c), |c.args| + if IsMethodCall(env, c) then 1 else 0);
    assert CallCode(env, c) == ReceiverCode(env, c) + ArgsCode(env, c.args) + [call];
    NetEffectShort(call, Neg, Neg);
    ReceiverEffect(env, c);
    NetEffectAppend(ReceiverCode(env, c), ArgsCode(env, c.args));
    NetEffectAppend(ReceiverCode(env, c) + ArgsCode(env, c.args), [call]);
  }

  /** The receiver pushes the extra argument exactly for a method call. */
  lemma ReceiverEffect(env: Env, c: SubroutineCall)
    requires CallResolved(env, c)
    ensures NetEffect(ReceiverCode(env, c)) == if IsMethodCall(env, c) then 1 else 0
  {
    if IsMethodCall(env, c) {
      NetEffectShort(ReceiverCode(env, c)[0], Neg, Neg);
    }
  }

  lemma {:induction false} CharsBalanced(us: seq<nat>)
    ensures NetEffect(CharsCode(us)) == 0
    decreases |us|
  {
    if us != [] {
      CharsBalanced(us[..|us| - 1]);
      NetEffectShort(Push(Constant, us[|us| - 1]), Call("String.appendChar", 2), Neg);
      NetEffectAppend(CharsCode(us[..|us| - 1]), [Push(Constant, us[|us| - 1]), Call("String.appendChar", 2)]);
    }
  }

  predicate StmtWellFormed(s: Statement)
    decreases s
  {
    match s
    case WhileStmt(c, b) => ExprWellFormed(c) && StmtsWellFormed(b)
    case IfStmt(c, t) => ExprWellFormed(c) && StmtsWellFormed(t)
    case IfElseStmt(c, t, e) => ExprWellFormed(c) && StmtsWellFormed(t) && StmtsWellFormed(e)
    case LetStmt(_, r) => ExprWellFormed(r)
    case LetIndexedStmt(_, i, r) => ExprWellFormed(i) && ExprWellFormed(r)
    case DoStmt(c) => ArgsWellFormed(c.args)
    case ReturnValue(e) => ExprWellFormed(e)
    case ReturnVoid => true
  }

  predicate StmtsWellFormed(ss: seq<Statement>)
    decreases ss
  {
    ss == [] || (StmtsWellFormed(ss[..|ss| - 1]) && StmtWellFormed(ss[|ss| - 1]))
  }

  predicate StmtOk(env: Env, s: Statement) { StmtResolved(env, s) && StmtWellFormed(s) }
  predicate StmtsOk(env: Env, ss: seq<Statement>) { StmtsResolved(env, ss) && StmtsWellFormed(ss) }

  lemma Append3Effect(a: seq<Command>, b: seq<Command>, c: seq<Command>)
    ensures NetEffect(a + b + c) == NetEffect(a) + NetEffect(b) + NetEffect(c)
  {
    NetEffectAppend(a, b);
    NetEffectAppend(a + b, c);
  }

  /** The code of a loop or a conditional leaves the stack as it found it
      when its test pushes one value and its branches are balanced. */
  lemma BranchesBalanced(ev: seq<Command>, l: string, tb: seq<Command>, mid: seq<Command>, eb: seq<Command>, tail: seq<Command>)
    requires NetEffect(ev) == 1 && NetEffect(tb) == 0 && NetEffect(mid) == 0 && NetEffect(eb) == 0 && NetEffect(tail) == 0
    ensures NetEffect(ev + [Not, IfGoto(l)] + tb + mid + eb + tail) == 0
  {
    NetEffectShort(Not, IfGoto(l), Neg);
    Append3Effect(ev, [Not, IfGoto(l)], tb);
    Append3Effect(ev + [Not, IfGoto(l)] + tb, mid, eb);
    NetEffectAppend(ev + [Not, IfGoto(l)] + tb + mid + eb, tail);
  }

  /** An accepted statement leaves the stack as it found it. */
  lemma {:induction false} StmtBalanced(env: Env, s: Statement, n: nat)
    requires StmtOk(env, s)
    ensures NetEffect(StmtCode(env, s, n)) == 0
    decreases s, 1
  {
    if s.WhileStmt? {
      WhileBalanced(env, s, n);
    } else if s.IfStmt? {
      IfBalanced(env, s, n);
    } else if s.IfElseStmt? {
      IfElseParts(env, s);
      IfElseBalanced(env, s.cond, s.thenPart, s.elsePart, n);
    } else {
      SimpleBalanced(env, s, n);
    }
  }

  lemma SimpleBalanced(env: Env, s: Statement, n: nat)
    requires !s.WhileStmt? && !s.IfStmt? && !s.IfElseStmt? && StmtOk(env, s)
    ensures NetEffect(StmtCode(env, s, n)) == 0
  {
    match s {
      case LetStmt(x, r) => LetBalanced(env, x, r, n);
      case LetIndexedStmt(x, i, r) => LetIndexedBalanced(env, x, i, r, n);
      case DoStmt(c) => DoBalanced(env, c, n);
      case ReturnValue(e) => ReturnBalanced(env, e, n);
      case ReturnVoid => NetEffectShort(Push(Constant, 0), Return, Neg);
    }
  }

  lemma DoBalanced(env: Env, c: SubroutineCall, n: nat)
    requires StmtOk(env, DoStmt(c))
    ensures NetEffect(StmtCode(env, DoStmt(c), n)) == 0
  {
    CallPushesOne(env, c);
    NetEffectShort(Pop(Temp, 0), Neg, Neg);
    NetEffectAppend(CallCode(env, c), [Pop(Temp, 0)]);
  }

  lemma ReturnBalanced(env: Env, e: Expr, n: nat)
    requires StmtOk(env, ReturnValue(e))
    ensures NetEffect(StmtCode(env, ReturnValue(e), n)) == 0
  {
    ExprPushesOne(env, e);
    NetEffectShort(Return, Neg, Neg);
    NetEffectAppend(ExprCode(env, e), [Return]);
  }

  lemma {:induction false} WhileBalanced(env: Env, s: Statement, n: nat)
    requires s.WhileStmt? && StmtOk(env, s)
    ensures NetEffect(StmtCode(env, s, n)) == 0
    decreases s, 0
  {
    ExprPushesOne(env, s.cond);
    StmtsBalanced(env, s.body, n + 2);
    WhileShapeBalanced(ExprCode(env, s.cond), StmtsCode(env, s.body, n + 2), LabelName(n), LabelName(n + 1));
  }

  lemma WhileShapeBalanced(ev: seq<Command>, body: seq<Command>, top: string, exit: string)
    requires NetEffect(ev) == 1 && NetEffect(body) == 0
    ensures NetEffect([Label(top)] + ev + [Not, IfGoto(exit)] + body + [Goto(top), Label(exit)]) == 0
  {
    NetEffectShort(Label(top), Neg, Neg);
    NetEffectShort(Goto(top), Label(exit), Neg);
    NetEffectAppend([Label(top)], ev);
    BranchesBalanced([Label(top)] + ev, exit, body, [], [], [Goto(top), Label(exit)]);
    assert [Label(top)] + ev + [Not, IfGoto(exit)] + body + [] + [] + [Goto(top), Label(exit)]
        == [Label(top)] + ev + [Not, IfGoto(exit)] + body + [Goto(top), Label(exit)];
  }

  lemma {:induction false} IfBalanced(env: Env, s: Statement, n: nat)
    requires s.IfStmt? && StmtOk(env, s)
    ensures NetEffect(StmtCode(env, s, n)) == 0
    decreases s, 0
  {
    ExprPushesOne(env, s.cond);
    StmtsBalanced(env, s.thenPart, n + 1);
    IfShapeBalanced(ExprCode(env, s.cond), StmtsCode(env, s.thenPart, n + 1), LabelName(n));
  }

  lemma IfShapeBalanced(ev: seq<Command>, tb: seq<Command>, l: string)
    requires NetEffect(ev) == 1 && NetEffect(tb) == 0
    ensures NetEffect(ev + [Not, IfGoto(l)] + tb + [Label(l)]) == 0
  {
    NetEffectShort(Label(l), Neg, Neg);
    BranchesBalanced(ev, l, tb, [], [], [Label(l)]);
    assert ev + [Not, IfGoto(l)] + tb + [] + [] + [Label(l)] == ev + [Not, IfGoto(l)] + tb + [Label(l)];
  }

  lemma {:induction false} IfElseBalanced(env: Env, c: Expr, t: seq<Statement>, e: seq<Statement>, n: nat)
    requires ExprOk(env, c) && StmtsOk(env, t) && StmtsOk(env, e)
    ensures NetEffect(StmtCode(env, IfElseStmt(c, t, e), n)) == 0
    decreases IfElseStmt(c, t, e), 0
  {
    var m := n + 1 + UsedAll(t);
    ExprPushesOne(env, c);
    StmtsBalanced(env, t, n + 1);
    StmtsBalanced(env, e, m + 1);
    IfElseShapeBalanced(ExprCode(env, c), StmtsCode(env, t, n + 1), StmtsCode(env, e, m + 1), LabelName(n), LabelName(m));
    IfElseCode(env, c, t, e, n);
  }

  lemma IfElseCode(env: Env, c: Expr, t: seq<Statement>, e: seq<Statement>, n: nat)
    ensures StmtCode(env, IfElseStmt(c, t, e), n)
            == ExprCode(env, c) + [Not, IfGoto(LabelName(n))] + StmtsCode(env, t, n + 1)
               + [Goto(LabelName(n + 1 + UsedAll(t))), Label(LabelName(n))]
               + StmtsCode(env, e, n + 1 + UsedAll(t) + 1) + [Label(LabelName(n + 1 + UsedAll(t)))]
  {
  }

  lemma IfElseParts(env: Env, s: Statement)
    requires s.IfElseStmt? && StmtOk(env, s)
    ensures ExprOk(env, s.cond) && StmtsOk(env, s.thenPart) && StmtsOk(env, s.elsePart)
  {
  }

  lemma IfElseShapeBalanced(ev: seq<Command>, tb: seq<Command>, eb: seq<Command>, l: string, m: string)
    requires NetEffect(ev) == 1 && NetEffect(tb) == 0 && NetEffect(eb) == 0
    ensures NetEffect(ev + [Not, IfGoto(l)] + tb + [Goto(m), Label(l)] + eb + [Label(m)]) == 0
  {
    NetEffectShort(Goto(m), Label(l), Neg);
    NetEffectShort(Label(m), Neg, Neg);
    BranchesBalanced(ev, l, tb, [Goto(m), Label(l)], eb, [Label(m)]);
  }

  lemma LetBalanced(env: Env, x: string, r: Expr, n: nat)
    requires StmtOk(env, LetStmt(x, r))
    ensures NetEffect(StmtCode(env, LetStmt(x, r), n)) == 0
  {
    ExprPushesOne(env, r);
    NetEffectShort(PopVar(env, x)[0], Neg, Neg);
    NetEffectAppend(ExprCode(env, r), PopVar(env, x));
  }

  lemma LetIndexedBalanced(env: Env, x: string, i: Expr, r: Expr, n: nat)
    requires StmtOk(env, LetIndexedStmt(x, i, r))
    ensures NetEffect(StmtCode(env, LetIndexedStmt(x, i, r), n)) == 0
  {
    ExprPushesOne(env, i);
    ExprPushesOne(env, r);
    NetEffectShort(PushVar(env, x)[0], Neg, Neg);
    NetEffectShort(Add, Pop(Temp, 0), Neg);
    NetEffectShort(Push(Temp, 0), Pop(Pointer, 1), Pop(That, 0));
    Append3Effect(PushVar(env, x), ExprCode(env, i), [Add, Pop(Temp, 0)]);
    Append3Effect(PushVar(env, x) + ExprCode(env, i) + [Add, Pop(Temp, 0)], ExprCode(env, r),
                  [Push(Temp, 0), Pop(Pointer, 1), Pop(That, 0)]);
  }

  lemma {:induction false} StmtsBalanced(env: Env, ss: seq<Statement>, n: nat)
    requires StmtsOk(env, ss)
    ensures NetEffect(StmtsCode(env, ss, n)) == 0
    decreases ss, 2
  {
    if ss != [] {
      var init, last := ss[..|ss| - 1], ss[|ss| - 1];
      StmtsBalanced(env, init, n);
      StmtBalanced(env, last, n + UsedAll(init));
      StmtsEffect(env, ss, n);
    }
  }

  lemma StmtsEffect(env: Env, ss: seq<Statement>, n: nat)
    requires ss != []
    ensures NetEffect(StmtsCode(env, ss, n))
            == NetEffect(StmtsCode(env, ss[..|ss| - 1], n)) + NetEffect(StmtCode(env, ss[|ss| - 1], n + UsedAll(ss[..|ss| - 1])))
  {
    StmtsCodeLast(env, ss, n);
    NetEffectAppend(StmtsCode(env, ss[..|ss| - 1], n), StmtCode(env, ss[|ss| - 1], n + UsedAll(ss[..|ss| - 1])));
  }

  lemma StmtsCodeLast(env: Env, ss: seq<Statement>, n: nat)
    requires ss != []
    ensures StmtsCode(env, ss, n) == StmtsCode(env, ss[..|ss| - 1], n) + StmtCode(env, ss[|ss| - 1], n + UsedAll(ss[..|ss| - 1]))
  {
  }
}
