/** The phrases the compilation engine recognises, as trees. The engine emits
    code while it parses and keeps no tree; these values are what it has
    recognised, so that its output can be stated as a function of them. */
module JackSyntax {
  import opened Base
  import K = KeywordTypes

  /** term (op term)*, kept as a left fold: Binary(Binary(Single(t1), o1, t2), o2, t3). */
  datatype Expr =
    | Single(first: Term)
    | Binary(left: Expr, op: char, right: Term)

  datatype Term =
    | IntLit(value: nat)
    | StringLit(text: string)
    | KeywordLit(k: K.Keyword)
    | Paren(inner: Expr)
    | Unary(op: char, operand: Term)
    | VarRef(name: string)
    | ArrayRef(name: string, index: Expr)
    | CallRef(call: SubroutineCall)
      /** An identifier followed by a token that is not a symbol: the engine
          steps over the identifier and emits nothing for it. */
    | Skipped(name: string)

  /** name(args), or qualifier.name(args). */
  datatype SubroutineCall = SubroutineCall(qualifier: Option<string>, name: string, args: seq<Expr>)

  datatype Statement =
    | WhileStmt(cond: Expr, body: seq<Statement>)
    | IfStmt(cond: Expr, thenPart: seq<Statement>)
    | IfElseStmt(cond: Expr, thenPart: seq<Statement>, elsePart: seq<Statement>)
    | LetStmt(name: string, rhs: Expr)
    | LetIndexedStmt(name: string, index: Expr, rhs: Expr)
    | DoStmt(call: SubroutineCall)
      /** return expr; taken when the token after 'return' is not a symbol. */
    | ReturnValue(value: Expr)
      /** return followed by any symbol token. */
    | ReturnVoid

  datatype SubroutineKind = ConstructorSub | FunctionSub | MethodSub

  /** int, char, boolean or a class name. */
  datatype JackType = IntType | CharType | BooleanType | ClassType(name: string)

  /** static|field type name (, name)* ; */
  datatype ClassVarDec = ClassVarDec(isStatic: bool, ty: JackType, names: seq<string>)

  datatype Parameter = Parameter(ty: JackType, name: string)

  /** var type name (, name)* ; */
  datatype VarDec = VarDec(ty: JackType, names: seq<string>)

  /** A constructor, function or method; its return type is checked and
      consumed but does not affect the code. */
  datatype SubroutineDec = SubroutineDec(kind: SubroutineKind, name: string, params: seq<Parameter>,
                                         locals: seq<VarDec>, body: seq<Statement>)

  datatype ClassDec = ClassDec(name: string, vars: seq<ClassVarDec>, subs: seq<SubroutineDec>)
}
