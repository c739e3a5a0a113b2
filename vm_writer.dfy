/** The VM emitter: every operation appends one line of VM text (writeAlloc
    two) to the output, which only ever grows. */
module VMWriter {
  import opened Base

  datatype Segment = Constant | Argument | Local | Static | This | That | Pointer | Temp

  function SegmentName(s: Segment): string
  {
    match s
    case Constant => "constant"
    case Argument => "argument"
    case Local => "local"
    case Static => "static"
    case This => "this"
    case That => "that"
    case Pointer => "pointer"
    case Temp => "temp"
  }

  function SegmentOf(name: string): (r: Option<Segment>)
    ensures r.Some? ==> SegmentName(r.value) == name
  {
    if name == "constant" then Some(Constant)
    else if name == "argument" then Some(Argument)
    else if name == "local" then Some(Local)
    else if name == "static" then Some(Static)
    else if name == "this" then Some(This)
    else if name == "that" then Some(That)
    else if name == "pointer" then Some(Pointer)
    else if name == "temp" then Some(Temp)
    else None
  }

  lemma SegmentOfName(s: Segment)
    ensures SegmentOf(SegmentName(s)) == Some(s)
  {
  }

  /** One VM command, as the emitter's operations produce them. */
  datatype Command =
    | Push(segment: Segment, index: nat)
    | Pop(segment: Segment, index: nat)
    | Call(name: string, nArgs: nat)
    | Function(name: string, nLocals: nat)
    | Label(target: string)
    | Goto(target: string)
    | IfGoto(target: string)
    | Neg | Not | Add | Sub | Mult | Div | And | Or | Lt | Gt | Eq | Return

  /** The text line of a command, newline included. */
  function Line(c: Command): string
  {
    match c
    case Push(s, i) => "push " + SegmentName(s) + " " + NatToString(i) + "\n"
    case Pop(s, i) => "pop " + SegmentName(s) + " " + NatToString(i) + "\n"
    case Call(f, n) => "call " + f + " " + NatToString(n) + "\n"
    case Function(f, n) => "function " + f + " " + NatToString(n) + "\n"
    case Label(l) => "label " + l + "\n"
    case Goto(l) => "goto " + l + "\n"
    case IfGoto(l) => "if-goto " + l + "\n"
    case Neg => "neg\n"
    case Not => "not\n"
    case Add => "add\n"
    case Sub => "sub\n"
    case Mult => "call Math.multiply 2\n"
    case Div => "call Math.divide 2\n"
    case And => "and\n"
    case Or => "or\n"
    case Lt => "lt\n"
    case Gt => "gt\n"
    case Eq => "eq\n"
    case Return => "return\n"
  }

  /** The lines of a command sequence, in order. */
  function Render(cs: seq<Command>): (r: seq<string>)
    ensures |r| == |cs|
  {
    seq(|cs|, i requires 0 <= i < |cs| => Line(cs[i]))
  }

  lemma RenderAppend(a: seq<Command>, b: seq<Command>)
    ensures Render(a + b) == Render(a) + Render(b)
  {
  }

  /** A name or label the line format can carry: nonempty and without spaces. */
  predicate Word(s: string)
  {
    |s| > 0 && ' ' !in s
  }

  predicate WellFormed(c: Command)
  {
    match c
    case Call(f, _) => Word(f)
    case Function(f, _) => Word(f)
    case Label(l) => Word(l)
    case Goto(l) => Word(l)
    case IfGoto(l) => Word(l)
    case _ => true
  }

  /** mult and div are written as the calls they stand for. */
  function Canonical(c: Command): Command
  {
    match c
    case Mult => Call("Math.multiply", 2)
    case Div => Call("Math.divide", 2)
    case _ => c
  }

  function FirstSpace(s: string): (i: nat)
    ensures i <= |s| && (i < |s| ==> s[i] == ' ')
    ensures forall j :: 0 <= j < i ==> s[j] != ' '
  {
    if s == [] || s[0] == ' ' then 0 else 1 + FirstSpace(s[1..])
  }

  /** The space-separated fields of a line. */
  function Split(s: string): seq<string>
    decreases |s|
  {
    var i := FirstSpace(s);
    if i == |s| then [s] else [s[..i]] + Split(s[i + 1..])
  }

  lemma SplitWord(a: string)
    requires ' ' !in a
    ensures Split(a) == [a]
  {
  }

  lemma SplitFields(a: string, rest: string)
    requires ' ' !in a
    ensures Split(a + " " + rest) == [a] + Split(rest)
  {
    var s := a + " " + rest;
    var i := FirstSpace(s);
    assert s[|a|] == ' ';
    forall j | 0 <= j < |a| ensures s[j] != ' ' {
      assert a[j] in a;
    }
    assert i == |a|;
    assert s[..i] == a && s[i + 1..] == rest;
  }

  predicate Numeral(s: string)
  {
    |s| > 0 && AllDigits(s)
  }

  /** Reads a line back into the command it spells; None for any other text. */
  function Parse(line: string): Option<Command>
  {
    if |line| == 0 || line[|line| - 1] != '\n' then None
    else ParseFields(Split(line[..|line| - 1]))
  }

  function ParseFields(f: seq<string>): Option<Command>
  {
    if |f| == 1 then
      var op := f[0];
      if op == "neg" then Some(Neg)
      else if op == "not" then Some(Not)
      else if op == "add" then Some(Add)
      else if op == "sub" then Some(Sub)
      else if op == "and" then Some(And)
      else if op == "or" then Some(Or)
      else if op == "lt" then Some(Lt)
      else if op == "gt" then Some(Gt)
      else if op == "eq" then Some(Eq)
      else if op == "return" then Some(Return)
      else None
    else if |f| == 2 then
      if f[1] == "" then None
      else if f[0] == "label" then Some(Label(f[1]))
      else if f[0] == "goto" then Some(Goto(f[1]))
      else if f[0] == "if-goto" then Some(IfGoto(f[1]))
      else None
    else if |f| == 3 then
      if !Numeral(f[2]) then None
      else if f[0] == "push" && SegmentOf(f[1]).Some? then Some(Push(SegmentOf(f[1]).value, DecimalValue(f[2])))
      else if f[0] == "pop" && SegmentOf(f[1]).Some? then Some(Pop(SegmentOf(f[1]).value, DecimalValue(f[2])))
      else if f[0] == "call" && f[1] != "" then Some(Call(f[1], DecimalValue(f[2])))
      else if f[0] == "function" && f[1] != "" then Some(Function(f[1], DecimalValue(f[2])))
      else None
    else None
  }

  lemma NumeralWord(n: nat)
    ensures Numeral(NatToString(n)) && ' ' !in NatToString(n)
    ensures DecimalValue(NatToString(n)) == n
  {
    DecimalValueOfNatToString(n);
  }

  lemma SplitThree(op: string, a: string, w: string)
    requires ' ' !in op && ' ' !in a && ' ' !in w
    ensures Split(op + " " + a + " " + w) == [op, a, w]
  {
    SplitWord(w);
    SplitFields(a, w);
    var rest := a + " " + w;
    assert op + " " + a + " " + w == op + " " + rest;
    SplitFields(op, rest);
  }

  lemma ParseThree(op: string, a: string, n: nat)
    requires ' ' !in op && ' ' !in a
    ensures Split(op + " " + a + " " + NatToString(n)) == [op, a, NatToString(n)]
  {
    NumeralWord(n);
    SplitThree(op, a, NatToString(n));
  }

  lemma ParseTwo(op: string, a: string)
    requires ' ' !in op && ' ' !in a
    ensures Split(op + " " + a) == [op, a]
  {
    SplitWord(a);
    SplitFields(op, a);
  }

  lemma StripNewline(s: string)
    ensures (s + "\n")[..|s + "\n"| - 1] == s
  {
  }

  lemma ParseOperands(op: string, a: string, n: nat)
    requires ' ' !in op && ' ' !in a
    ensures Parse(op + " " + a + " " + NatToString(n) + "\n") == ParseFields([op, a, NatToString(n)])
  {
    StripNewline(op + " " + a + " " + NatToString(n));
    ParseThree(op, a, n);
  }

  lemma ParseJump(op: string, l: string)
    requires ' ' !in op && ' ' !in l
    ensures Parse(op + " " + l + "\n") == ParseFields([op, l])
  {
    StripNewline(op + " " + l);
    ParseTwo(op, l);
  }

  lemma ParseOpcode(op: string)
    requires ' ' !in op
    ensures Parse(op + "\n") == ParseFields([op])
  {
    StripNewline(op);
    SplitWord(op);
  }

  lemma OperandRoundTrip(c: Command, op: string, a: string, n: nat)
    requires Line(c) == op + " " + a + " " + NatToString(n) + "\n" && ' ' !in op && ' ' !in a
    requires ParseFields([op, a, NatToString(n)]) == Some(c)
    ensures Parse(Line(c)) == Some(c)
  {
    ParseOperands(op, a, n);
  }

  lemma ParsePush(s: Segment, i: nat)
    ensures Parse(Line(Push(s, i))) == Some(Push(s, i))
  {
    SegmentOfName(s);
    NumeralWord(i);
    OperandRoundTrip(Push(s, i), "push", SegmentName(s), i);
  }

  lemma ParsePop(s: Segment, i: nat)
    ensures Parse(Line(Pop(s, i))) == Some(Pop(s, i))
  {
    SegmentOfName(s);
    NumeralWord(i);
    OperandRoundTrip(Pop(s, i), "pop", SegmentName(s), i);
  }

  lemma ParseCall(f: string, n: nat)
    requires Word(f)
    ensures Parse(Line(Call(f, n))) == Some(Call(f, n))
  {
    NumeralWord(n);
    OperandRoundTrip(Call(f, n), "call", f, n);
  }

  lemma ParseFunction(f: string, n: nat)
    requires Word(f)
    ensures Parse(Line(Function(f, n))) == Some(Function(f, n))
  {
    NumeralWord(n);
    OperandRoundTrip(Function(f, n), "function", f, n);
  }

  lemma JumpRoundTrip(c: Command, op: string)
    requires (c.Label? || c.Goto? || c.IfGoto?) && Word(c.target)
    requires Line(c) == op + " " + c.target + "\n" && ' ' !in op
    requires ParseFields([op, c.target]) == Some(c)
    ensures Parse(Line(c)) == Some(c)
  {
    ParseJump(op, c.target);
  }

  lemma ParseJumpLine(c: Command)
    requires (c.Label? || c.Goto? || c.IfGoto?) && Word(c.target)
    ensures Parse(Line(c)) == Some(c)
  {
    match c {
      case Label(l) => JumpRoundTrip(c, "label");
      case Goto(l) => JumpRoundTrip(c, "goto");
      case IfGoto(l) => JumpRoundTrip(c, "if-goto");
    }
  }

  lemma NullaryRoundTrip(c: Command, op: string)
    requires Line(c) == op + "\n" && ' ' !in op && ParseFields([op]) == Some(c)
    ensures Parse(Line(c)) == Some(c)
  {
    ParseOpcode(op);
  }

  lemma ParseArithmeticLine(c: Command)
    requires c.Neg? || c.Not? || c.Add? || c.Sub? || c.And?
    ensures Parse(Line(c)) == Some(c)
  {
    match c {
      case Neg => NullaryRoundTrip(c, "neg");
      case Not => NullaryRoundTrip(c, "not");
      case Add => NullaryRoundTrip(c, "add");
      case Sub => NullaryRoundTrip(c, "sub");
      case And => NullaryRoundTrip(c, "and");
    }
  }

  lemma ParseComparisonLine(c: Command)
    requires c.Or? || c.Lt? || c.Gt? || c.Eq? || c.Return?
    ensures Parse(Line(c)) == Some(c)
  {
    match c {
      case Or => NullaryRoundTrip(c, "or");
      case Lt => NullaryRoundTrip(c, "lt");
      case Gt => NullaryRoundTrip(c, "gt");
      case Eq => NullaryRoundTrip(c, "eq");
      case Return => NullaryRoundTrip(c, "return");
    }
  }

  lemma TwoString()
    ensures NatToString(2) == "2"
  {
    assert DigitChar(2) == '2';
  }

  /** mult and div are written as two-argument calls. */
  lemma MultLine()
    ensures Line(Mult) == Line(Call("Math.multiply", 2))
  {
    TwoString();
  }

  lemma DivLine()
    ensures Line(Div) == Line(Call("Math.divide", 2))
  {
    TwoString();
  }

  lemma ParseMultDiv(c: Command)
    requires c.Mult? || c.Div?
    ensures Parse(Line(c)) == Some(Canonical(c))
  {
    if c.Mult? {
      MultLine();
      ParseCall("Math.multiply", 2);
    } else {
      DivLine();
      ParseCall("Math.divide", 2);
    }
  }

  /** Every well-formed command's line reads back as that command, mult and
      div reading back as the calls they are written as. */
  lemma ParseLine(c: Command)
    requires WellFormed(c)
    ensures Parse(Line(c)) == Some(Canonical(c))
  {
    match c {
      case Push(s, i) => ParsePush(s, i);
      case Pop(s, i) => ParsePop(s, i);
      case Call(f, n) => ParseCall(f, n);
      case Function(f, n) => ParseFunction(f, n);
      case Label(_) => ParseJumpLine(c);
      case Goto(_) => ParseJumpLine(c);
      case IfGoto(_) => ParseJumpLine(c);
      case Mult => ParseMultDiv(c);
      case Div => ParseMultDiv(c);
      case Neg => ParseArithmeticLine(c);
      case Not => ParseArithmeticLine(c);
      case Add => ParseArithmeticLine(c);
      case Sub => ParseArithmeticLine(c);
      case And => ParseArithmeticLine(c);
      case _ => ParseComparisonLine(c);
    }
  }

  /** Distinct well-formed commands with distinct text never share a line:
      the only commands written alike are mult/div and their calls. */
  lemma LineInjective(c: Command, d: Command)
    requires WellFormed(c) && WellFormed(d) && Line(c) == Line(d)
    ensures Canonical(c) == Canonical(d)
  {
    ParseLine(c);
    ParseLine(d);
  }

  /** A rendered listing reads back line by line as its commands, mult and
      div as the calls they are written as. */
  lemma RenderReadsBack(cs: seq<Command>)
    requires forall i | 0 <= i < |cs| :: WellFormed(cs[i])
    ensures forall i | 0 <= i < |Render(cs)| :: Parse(Render(cs)[i]) == Some(Canonical(cs[i]))
  {
    forall i | 0 <= i < |cs|
      ensures Parse(Render(cs)[i]) == Some(Canonical(cs[i]))
    {
      ParseLine(cs[i]);
    }
  }

  /** Two listings with the same text are the same commands, up to mult and div. */
  lemma RenderInjective(a: seq<Command>, b: seq<Command>)
    requires forall i | 0 <= i < |a| :: WellFormed(a[i])
    requires forall i | 0 <= i < |b| :: WellFormed(b[i])
    requires Render(a) == Render(b)
    ensures |a| == |b| && forall i | 0 <= i < |a| :: Canonical(a[i]) == Canonical(b[i])
  {
    RenderReadsBack(a);
    RenderReadsBack(b);
  }
}

/** The emitter object: the output it has written so far, one string per line. */
module VMWriterClass {
  import opened Base
  import opened VMWriter

  class Writer {
    var lines: seq<string>

    constructor ()
      ensures lines == []
    {
      lines := [];
    }

    method WritePush(segment: Segment, index: nat)
      modifies this
      ensures lines == old(lines) + [Line(Push(segment, index))]
    {
      lines := lines + ["push " + SegmentName(segment) + " " + NatToString(index) + "\n"];
    }

    method WritePop(segment: Segment, index: nat)
      modifies this
      ensures lines == old(lines) + [Line(Pop(segment, index))]
    {
      lines := lines + ["pop " + SegmentName(segment) + " " + NatToString(index) + "\n"];
    }

    method WriteCall(functionName: string, argumentCount: nat)
      modifies this
      ensures lines == old(lines) + [Line(Call(functionName, argumentCount))]
    {
      lines := lines + ["call " + functionName + " " + NatToString(argumentCount) + "\n"];
    }

    method WriteFunction(name: string, numberOfLocalVar: nat)
      modifies this
      ensures lines == old(lines) + [Line(Function(name, numberOfLocalVar))]
    {
      lines := lines + ["function " + name + " " + NatToString(numberOfLocalVar) + "\n"];
    }

    method WriteLabel(target: string)
      modifies this
      ensures lines == old(lines) + [Line(Label(target))]
    {
      lines := lines + ["label " + target + "\n"];
    }

    method WriteGoto(target: string)
      modifies this
      ensures lines == old(lines) + [Line(Goto(target))]
    {
      lines := lines + ["goto " + target + "\n"];
    }

    method WriteIfGoto(target: string)
      modifies this
      ensures lines == old(lines) + [Line(IfGoto(target))]
    {
      lines := lines + ["if-goto " + target + "\n"];
    }

    /** writeAlloc(n): push constant n, then call Memory.alloc 1. */
    method WriteAlloc(numberOfBlocks: nat)
      modifies this
      ensures lines == old(lines) + Render([Push(Constant, numberOfBlocks), Call("Memory.alloc", 1)])
    {
      WritePush(Constant, numberOfBlocks);
      WriteCall("Memory.alloc", 1);
    }

    /** The zero-operand operations, each appending its own line. */
    method WriteArithmetic(c: Command)
      requires c.Neg? || c.Not? || c.Add? || c.Sub? || c.Mult? || c.Div? || c.And? || c.Or? || c.Lt? || c.Gt? || c.Eq? || c.Return?
      modifies this
      ensures lines == old(lines) + [Line(c)]
    {
      var text :=
        match c
        case Neg => "neg\n"
        case Not => "not\n"
        case Add => "add\n"
        case Sub => "sub\n"
        case Mult => "call Math.multiply 2\n"
        case Div => "call Math.divide 2\n"
        case And => "and\n"
        case Or => "or\n"
        case Lt => "lt\n"
        case Gt => "gt\n"
        case Eq => "eq\n"
        case Return => "return\n";
      lines := lines + [text];
    }
  }
}
