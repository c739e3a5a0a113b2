/** The symbol tables a class declaration fills and the code of a whole
    class: one subroutine after another, with the label counter running on
    from one subroutine into the next. */
module Declarations {
  import opened Base
  import ST = SymbolTables
  import opened VMWriter
  import opened JackSyntax
  import opened CodeGen

  function SymbolTypeOf(t: JackType): ST.SymbolType
  {
    match t
    case IntType => ST.IntType
    case CharType => ST.CharType
    case BooleanType => ST.BooleanType
    case ClassType(_) => ST.ClassNameType
  }

  /** Class-typed symbols are inserted through the overload that records the class name. */
  function ClassNameOf(t: JackType): Option<string>
  {
    match t
    case ClassType(c) => Some(c)
    case _ => None
  }

  /** The insertion of one declared name after the insertions h: it gets the
      next index of its kind. */
  function Declared(h: seq<ST.Entry>, name: string, t: JackType, k: ST.SymbolKind): ST.Entry
  {
    ST.Entry(name, SymbolTypeOf(t), k, ST.CountKind(h, k), ClassNameOf(t))
  }

  /** The insertions after h of the names of one declaration, in order. */
  function Declare(h: seq<ST.Entry>, names: seq<string>, t: JackType, k: ST.SymbolKind): (r: seq<ST.Entry>)
    ensures |r| == |h| + |names| && r[..|h|] == h
    decreases |names|
  {
    if names == [] then h
    else
      var h' := Declare(h, names[..|names| - 1], t, k);
      h' + [Declared(h', names[|names| - 1], t, k)]
  }

  lemma DeclareStep(h: seq<ST.Entry>, names: seq<string>, i: nat, t: JackType, k: ST.SymbolKind)
    requires i < |names|
    ensures Declare(h, names[..i + 1], t, k) == Declare(h, names[..i], t, k) + [Declared(Declare(h, names[..i], t, k), names[i], t, k)]
  {
    assert names[..i + 1][..i] == names[..i];
  }

  /** The kind of a class variable: static or field. */
  function ClassVarKind(d: ClassVarDec): ST.SymbolKind
  {
    if d.isStatic then ST.Static else ST.Field
  }

  /** The insertions after h of one class variable declaration. */
  function ClassVarHistory(h: seq<ST.Entry>, d: ClassVarDec): seq<ST.Entry>
  {
    Declare(h, d.names, d.ty, ClassVarKind(d))
  }

  /** The class table after the class variable declarations. */
  function ClassHistory(vars: seq<ClassVarDec>): seq<ST.Entry>
    decreases |vars|
  {
    if vars == [] then []
    else ClassVarHistory(ClassHistory(vars[..|vars| - 1]), vars[|vars| - 1])
  }

  /** A method's table starts with `this`, a class-typed argument inserted
      without a class name. */
  function ThisEntries(kind: SubroutineKind): seq<ST.Entry>
  {
    if kind == MethodSub then [ST.Entry("this", ST.ClassNameType, ST.Argument, 0, None)] else []
  }

  function ParamsHistory(h: seq<ST.Entry>, ps: seq<Parameter>): seq<ST.Entry>
    decreases |ps|
  {
    if ps == [] then h
    else
      var h' := ParamsHistory(h, ps[..|ps| - 1]);
      h' + [Declared(h', ps[|ps| - 1].name, ps[|ps| - 1].ty, ST.Argument)]
  }

  function LocalsHistory(h: seq<ST.Entry>, ls: seq<VarDec>): seq<ST.Entry>
    decreases |ls|
  {
    if ls == [] then h
    else Declare(LocalsHistory(h, ls[..|ls| - 1]), ls[|ls| - 1].names, ls[|ls| - 1].ty, ST.Local)
  }

  /** The subroutine table once a subroutine's parameters and locals are declared. */
  function SubHistory(d: SubroutineDec): seq<ST.Entry>
  {
    LocalsHistory(ParamsHistory(ThisEntries(d.kind), d.params), d.locals)
  }

  /** What the engine reads of a table holding the insertions h. */
  function ScopeOf(h: seq<ST.Entry>): Scope
  {
    Scope(ST.Bindings(h), ST.RecordedClasses(h))
  }

  function SubEnv(className: string, cls: seq<ST.Entry>, d: SubroutineDec): Env
  {
    Env(className, ScopeOf(SubHistory(d)), ScopeOf(cls))
  }

  /** The code of one subroutine declaration whose first label is number n. */
  function SubDecCode(className: string, cls: seq<ST.Entry>, d: SubroutineDec, n: nat): seq<Command>
  {
    SubroutineCode(SubEnv(className, cls, d), d.kind, d.name, ST.CountKind(SubHistory(d), ST.Local),
                   ST.CountKind(cls, ST.Field), d.body, n)
  }

  /** How many labels a sequence of subroutines draws. */
  function UsedBySubs(subs: seq<SubroutineDec>): nat
    decreases |subs|
  {
    if subs == [] then 0 else UsedBySubs(subs[..|subs| - 1]) + UsedAll(subs[|subs| - 1].body)
  }

  /** The code of the subroutines subs in order, each compiled by code from
      the first label number the ones before it leave unused. */
  function SubsCodeWith(code: (SubroutineDec, nat) -> seq<Command>, subs: seq<SubroutineDec>, n: nat): seq<Command>
    decreases |subs|
  {
    if subs == [] then []
    else
      var init := subs[..|subs| - 1];
      SubsCodeWith(code, init, n) + code(subs[|subs| - 1], n + UsedBySubs(init))
  }

  /** Compiling one subroutine of a class whose class table holds cls. */
  function SubDecCodeOf(className: string, cls: seq<ST.Entry>): (SubroutineDec, nat) -> seq<Command>
  {
    (d: SubroutineDec, k: nat) => SubDecCode(className, cls, d, k)
  }

  function SubsCode(className: string, cls: seq<ST.Entry>, subs: seq<SubroutineDec>, n: nat): seq<Command>
  {
    SubsCodeWith(SubDecCodeOf(className, cls), subs, n)
  }

  function ClassCode(c: ClassDec): seq<Command>
  {
    SubsCode(c.name, ClassHistory(c.vars), c.subs, 0)
  }

  /** Every name the subroutines of a class look up resolves. */
  predicate SubsResolved(className: string, cls: seq<ST.Entry>, subs: seq<SubroutineDec>)
  {
    forall i | 0 <= i < |subs| :: StmtsResolved(SubEnv(className, cls, subs[i]), subs[i].body)
  }

  predicate ClassResolved(c: ClassDec)
  {
    SubsResolved(c.name, ClassHistory(c.vars), c.subs)
  }

  lemma SubsCodeWithAppend(code: (SubroutineDec, nat) -> seq<Command>, subs: seq<SubroutineDec>, d: SubroutineDec, n: nat)
    ensures SubsCodeWith(code, subs + [d], n) == SubsCodeWith(code, subs, n) + code(d, n + UsedBySubs(subs))
  {
    var all := subs + [d];
    assert all[..|all| - 1] == subs;
  }

  lemma SubDecCodeOfApply(className: string, cls: seq<ST.Entry>, d: SubroutineDec, k: nat)
    ensures SubDecCodeOf(className, cls)(d, k) == SubDecCode(className, cls, d, k)
  {
  }

  /** One more subroutine: its code follows, at the next free label. */
  lemma SubsAppend(className: string, cls: seq<ST.Entry>, subs: seq<SubroutineDec>, d: SubroutineDec, n: nat)
    ensures SubsCode(className, cls, subs + [d], n)
            == SubsCode(className, cls, subs, n) + SubDecCodeOf(className, cls)(d, n + UsedBySubs(subs))
  {
    SubsCodeWithAppend(SubDecCodeOf(className, cls), subs, d, n);
  }

  lemma SubsCodeWithStep(code: seq<Command>, c0: seq<Command>, compile: (SubroutineDec, nat) -> seq<Command>,
                         subs: seq<SubroutineDec>, d: SubroutineDec, n: nat, k: nat)
    requires k == n + UsedBySubs(subs)
    requires code == c0 + SubsCodeWith(compile, subs, n) + compile(d, k)
    ensures code == c0 + SubsCodeWith(compile, subs + [d], n)
  {
    SubsCodeWithAppend(compile, subs, d, n);
    assert c0 + SubsCodeWith(compile, subs, n) + compile(d, k) == c0 + (SubsCodeWith(compile, subs, n) + compile(d, k));
  }

  /** The step of a loop that emits a class's subroutines one by one after
      the commands c0: the code of one more subroutine extends the code so far. */
  lemma SubsStep(code: seq<Command>, c0: seq<Command>, className: string, cls: seq<ST.Entry>,
                 subs: seq<SubroutineDec>, d: SubroutineDec, n: nat, k: nat)
    requires k == n + UsedBySubs(subs)
    requires code == c0 + SubsCode(className, cls, subs, n) + SubDecCodeOf(className, cls)(d, k)
    ensures code == c0 + SubsCode(className, cls, subs + [d], n)
  {
    SubsCodeWithStep(code, c0, SubDecCodeOf(className, cls), subs, d, n, k);
  }

  lemma UsedBySubsAppend(subs: seq<SubroutineDec>, d: SubroutineDec)
    ensures UsedBySubs(subs + [d]) == UsedBySubs(subs) + UsedAll(d.body)
  {
    var all := subs + [d];
    assert all[..|all| - 1] == subs;
  }

  /** One more subroutine: the class resolves when it does too. */
  lemma SubsResolvedAppend(className: string, cls: seq<ST.Entry>, subs: seq<SubroutineDec>, d: SubroutineDec)
    ensures SubsResolved(className, cls, subs + [d])
            <==> SubsResolved(className, cls, subs) && StmtsResolved(SubEnv(className, cls, d), d.body)
  {
    var all := subs + [d];
    if SubsResolved(className, cls, all) {
      forall i | 0 <= i < |subs|
        ensures StmtsResolved(SubEnv(className, cls, subs[i]), subs[i].body)
      {
        assert all[i] == subs[i];
      }
      assert all[|subs|] == d;
    }
    if SubsResolved(className, cls, subs) && StmtsResolved(SubEnv(className, cls, d), d.body) {
      forall i | 0 <= i < |all|
        ensures StmtsResolved(SubEnv(className, cls, all[i]), all[i].body)
      {
        if i < |subs| {
          assert all[i] == subs[i];
        }
      }
    }
  }

  lemma SubsResolvedPrefix(className: string, cls: seq<ST.Entry>, subs: seq<SubroutineDec>, k: nat)
    requires SubsResolved(className, cls, subs) && k <= |subs|
    ensures SubsResolved(className, cls, subs[..k])
  {
    assert forall i | 0 <= i < k :: subs[..k][i] == subs[i];
  }

  /** No label is defined twice in a class's code: the subroutines draw
      consecutive, disjoint ranges of label numbers. */
  lemma {:induction false} SubsCodeWithLabelsFresh(code: (SubroutineDec, nat) -> seq<Command>, subs: seq<SubroutineDec>, n: nat)
    requires forall d: SubroutineDec, k: nat :: LabelsFresh(code(d, k), Names(k, k + UsedAll(d.body)))
    ensures LabelsFresh(SubsCodeWith(code, subs, n), Names(n, n + UsedBySubs(subs)))
    decreases |subs|
  {
    if subs == [] {
      NoLabelsFresh([]);
      assert Names(n, n) == {};
    } else {
      var init, d := subs[..|subs| - 1], subs[|subs| - 1];
      var k := n + UsedBySubs(init);
      SubsCodeWithLabelsFresh(code, init, n);
      NamesSplit(n, k, k + UsedAll(d.body));
      JoinFresh(SubsCodeWith(code, init, n), Names(n, k), code(d, k), Names(k, k + UsedAll(d.body)));
    }
  }

  /** Each subroutine labels its code with fresh names of its own. */
  lemma SubsLabelsFresh(className: string, cls: seq<ST.Entry>, subs: seq<SubroutineDec>, n: nat)
    ensures LabelsFresh(SubsCode(className, cls, subs, n), Names(n, n + UsedBySubs(subs)))
  {
    var code := SubDecCodeOf(className, cls);
    forall d: SubroutineDec, k: nat
      ensures LabelsFresh(code(d, k), Names(k, k + UsedAll(d.body)))
    {
      SubDecCodeOfApply(className, cls, d, k);
      SubroutineLabelsFresh(SubEnv(className, cls, d), d.kind, d.name, ST.CountKind(SubHistory(d), ST.Local),
                            ST.CountKind(cls, ST.Field), d.body, k);
    }
    SubsCodeWithLabelsFresh(code, subs, n);
  }

  lemma ClassLabelsFresh(c: ClassDec)
    ensures LabelsFresh(ClassCode(c), Names(0, UsedBySubs(c.subs)))
  {
    SubsLabelsFresh(c.name, ClassHistory(c.vars), c.subs, 0);
  }
}
