/** The XML trace writer: entity escaping, and a stack of open tags with an
    indentation counter, written to a text output. */
module BasicXmlWriter {
  import opened Base

  /** The five characters escape replaces. */
  predicate Special(c: char)
  {
    c == '"' || c == '&' || c == '\'' || c == '<' || c == '>'
  }

  function EscapeChar(c: char): string
  {
    if c == '"' then "&quot;"
    else if c == '&' then "&amp;"
    else if c == '\'' then "&apos;"
    else if c == '<' then "&lt;"
    else if c == '>' then "&gt;"
    else [c]
  }

  /** escape: each character replaced by its entity, or kept, in order. */
  function Escaped(s: string): string
  {
    if s == [] then "" else EscapeChar(s[0]) + Escaped(s[1..])
  }

  lemma {:induction false} EscapedAppend(a: string, b: string)
    ensures Escaped(a + b) == Escaped(a) + Escaped(b)
  {
    if a == [] {
      assert a + b == b;
    } else {
      assert (a + b)[1..] == a[1..] + b;
      EscapedAppend(a[1..], b);
    }
  }

  /** A string without the five characters is left as it is. */
  lemma {:induction false} EscapedIdentity(s: string)
    requires forall i :: 0 <= i < |s| ==> !Special(s[i])
    ensures Escaped(s) == s
  {
    if s != [] {
      EscapedIdentity(s[1..]);
    }
  }

  /** The output holds no raw <, >, " or '. */
  lemma {:induction false} EscapedHasNoRaw(s: string)
    ensures forall i :: 0 <= i < |Escaped(s)| ==> !(Escaped(s)[i] in "<>\"'")
  {
    if s != [] {
      EscapedHasNoRaw(s[1..]);
      var e := EscapeChar(s[0]);
      assert Escaped(s) == e + Escaped(s[1..]);
      assert forall i :: 0 <= i < |e| ==> !(e[i] in "<>\"'");
    }
  }

  /** Entity decoding, the inverse of escape. */
  function Unescaped(t: string): string
  {
    if t == [] then ""
    else if |t| >= 6 && t[..6] == "&quot;" then "\"" + Unescaped(t[6..])
    else if |t| >= 5 && t[..5] == "&amp;" then "&" + Unescaped(t[5..])
    else if |t| >= 6 && t[..6] == "&apos;" then "'" + Unescaped(t[6..])
    else if |t| >= 4 && t[..4] == "&lt;" then "<" + Unescaped(t[4..])
    else if |t| >= 4 && t[..4] == "&gt;" then ">" + Unescaped(t[4..])
    else [t[0]] + Unescaped(t[1..])
  }

  lemma UnescapedStep(e: string, rest: string, c: char)
    requires e == EscapeChar(c)
    ensures Unescaped(e + rest) == [c] + Unescaped(rest)
  {
    var t := e + rest;
    assert t[..|e|] == e && t[|e|..] == rest;
    if c == '"' {
      assert t[..6] == "&quot;";
    } else if c == '&' {
      assert |t| >= 6 ==> t[..6] != "&quot;" by { assert t[1] != "&quot;"[1]; }
      assert t[..5] == "&amp;";
    } else if c == '\'' {
      assert t[..6] != "&quot;" by { assert t[1] != "&quot;"[1]; }
      assert t[..5] != "&amp;" by { assert t[2] != "&amp;"[2]; }
      assert t[..6] == "&apos;";
    } else if c == '<' {
      assert |t| >= 6 ==> t[..6] != "&quot;" && t[..6] != "&apos;" by { assert t[1] == 'l'; }
      assert |t| >= 5 ==> t[..5] != "&amp;" by { assert t[1] == 'l'; }
      assert t[..4] == "&lt;";
    } else if c == '>' {
      assert |t| >= 6 ==> t[..6] != "&quot;" && t[..6] != "&apos;" by { assert t[1] == 'g'; }
      assert |t| >= 5 ==> t[..5] != "&amp;" by { assert t[1] == 'g'; }
      assert t[..4] != "&lt;" by { assert t[1] == 'g'; }
      assert t[..4] == "&gt;";
    } else {
      assert t[0] == c && t[1..] == rest;
      assert |t| >= 4 ==> t[..4][0] == c;
      assert |t| >= 5 ==> t[..5][0] == c;
      assert |t| >= 6 ==> t[..6][0] == c;
    }
  }

  /** Decoding the escaped text gives back the original string. */
  lemma {:induction false} UnescapeEscaped(s: string)
    ensures Unescaped(Escaped(s)) == s
  {
    if s != [] {
      UnescapedStep(EscapeChar(s[0]), Escaped(s[1..]), s[0]);
      UnescapeEscaped(s[1..]);
      assert [s[0]] + s[1..] == s;
    }
  }

  /** n spaces; none when n is not positive. */
  function Spaces(n: int): (r: string)
    ensures |r| == if n <= 0 then 0 else n
    ensures forall i :: 0 <= i < |r| ==> r[i] == ' '
  {
    if n <= 0 then "" else Spaces(n - 1) + " "
  }

  /** The writer's state: the text written, the open tags, the indent, and
      the first-tag and value-written flags. */
  datatype XmlState = XmlState(out: string, stack: seq<string>, indent: int, first: bool, valuePut: bool)

  const Initial := XmlState("", [], 0, true, false)

  datatype CloseOutcome = Closed | IncorrectClose | EmptyStack

  /** openTag. */
  function Open(st: XmlState, tag: string): XmlState
  {
    XmlState(st.out + (if st.first then "" else "\n") + Spaces(st.indent) + "<" + tag + ">",
             st.stack + [tag], st.indent + 2, false, false)
  }

  /** closeTag: the closing text is written before the stack is popped;
      popping an empty stack fails with the stack unchanged, and a popped tag
      other than the closed one fails after the pop. */
  function Close(st: XmlState, tag: string): (XmlState, CloseOutcome)
  {
    var indent := st.indent - 2;
    var out := st.out + (if st.valuePut then "" else "\n" + Spaces(indent)) + "</" + tag + ">";
    if st.stack == [] then (XmlState(out, st.stack, indent, st.first, st.valuePut), EmptyStack)
    else
      var popped := st.stack[|st.stack| - 1];
      var stack := st.stack[..|st.stack| - 1];
      if popped != tag then (XmlState(out, stack, indent, st.first, st.valuePut), IncorrectClose)
      else (XmlState(out, stack, indent, st.first, false), Closed)
  }

  /** writeValue. */
  function Value(st: XmlState, s: string): XmlState
  {
    st.(out := st.out + " " + Escaped(s) + " ", valuePut := true)
  }

  /** The indent is twice the number of open tags. */
  ghost predicate DepthConsistent(st: XmlState)
  {
    st.indent == 2 * |st.stack|
  }

  /** Opening, writing a value and any close that pops keep the indent at
      twice the depth; an opening tag is preceded by that many spaces. */
  lemma DepthPreserved(st: XmlState, tag: string, s: string)
    requires DepthConsistent(st)
    ensures DepthConsistent(Open(st, tag)) && DepthConsistent(Value(st, s))
    ensures Close(st, tag).1 != EmptyStack ==> DepthConsistent(Close(st, tag).0)
    ensures Close(st, tag).1 == EmptyStack <==> st.stack == []
    ensures Open(st, tag).out == st.out + (if st.first then "" else "\n") + Spaces(2 * |st.stack|) + "<" + tag + ">"
  {
  }

  /** A newline precedes every opening tag except the first one written. */
  lemma NewlineBeforeLaterTags(st: XmlState, tag: string, tag2: string)
    ensures !Open(st, tag).first
    ensures Open(Open(st, tag), tag2).out[|Open(st, tag).out|] == '\n'
    ensures Open(Initial, tag).out == "<" + tag + ">"
  {
  }

  /** An open immediately closed restores the stack and the indent and puts
      the closing tag on a line of its own at the opening tag's indent. */
  lemma OpenCloseRestores(st: XmlState, tag: string)
    ensures Close(Open(st, tag), tag).1 == Closed
    ensures Close(Open(st, tag), tag).0.stack == st.stack
    ensures Close(Open(st, tag), tag).0.indent == st.indent
    ensures Close(Open(st, tag), tag).0.out == Open(st, tag).out + "\n" + Spaces(st.indent) + "</" + tag + ">"
  {
    assert (st.stack + [tag])[..|st.stack|] == st.stack;
  }

  /** After a value, the closing tag stays on the same line. */
  lemma ValueThenCloseSameLine(st: XmlState, tag: string, s: string)
    ensures Close(Value(Open(st, tag), s), tag).1 == Closed
    ensures Close(Value(Open(st, tag), s), tag).0.out == Open(st, tag).out + " " + Escaped(s) + " " + "</" + tag + ">"
    ensures Close(Value(Open(st, tag), s), tag).0.stack == st.stack
  {
    assert (st.stack + [tag])[..|st.stack|] == st.stack;
  }

  /** Closing a tag other than the innermost open one fails, after the
      closing text is written and the innermost tag popped. */
  lemma MismatchedClose(st: XmlState, tag: string)
    requires st.stack != [] && st.stack[|st.stack| - 1] != tag
    ensures Close(st, tag).1 == IncorrectClose
    ensures Close(st, tag).0.stack == st.stack[..|st.stack| - 1]
    ensures |Close(st, tag).0.out| > |st.out|
  {
  }

  /** Calls on the writer, and documents as trees. */
  datatype Event = OpenEvent(tag: string) | CloseEvent(tag: string) | ValueEvent(text: string)

  datatype Node = Element(tag: string, children: seq<Node>) | Text(text: string)

  /** Runs the calls in order; None once a close fails. */
  function Run(st: XmlState, evs: seq<Event>): Option<XmlState>
    decreases |evs|
  {
    if evs == [] then Some(st)
    else
      match evs[0]
      case OpenEvent(t) => Run(Open(st, t), evs[1..])
      case ValueEvent(s) => Run(Value(st, s), evs[1..])
      case CloseEvent(t) =>
        var (st', outcome) := Close(st, t);
        if outcome == Closed then Run(st', evs[1..]) else None
  }

  lemma {:induction false} RunAppend(st: XmlState, a: seq<Event>, b: seq<Event>)
    ensures Run(st, a + b) == if Run(st, a).None? then None else Run(Run(st, a).value, b)
    decreases |a|
  {
    if a == [] {
      assert a + b == b;
    } else {
      assert (a + b)[0] == a[0] && (a + b)[1..] == a[1..] + b;
      match a[0]
      case OpenEvent(t) => RunAppend(Open(st, t), a[1..], b);
      case ValueEvent(s) => RunAppend(Value(st, s), a[1..], b);
      case CloseEvent(t) =>
        if Close(st, t).1 == Closed {
          RunAppend(Close(st, t).0, a[1..], b);
        }
    }
  }

  /** The calls that write a tree: open, the children, close. */
  function Emit(n: Node): seq<Event>
    decreases n
  {
    match n
    case Text(s) => [ValueEvent(s)]
    case Element(t, kids) => [OpenEvent(t)] + EmitAll(kids) + [CloseEvent(t)]
  }

  function EmitAll(kids: seq<Node>): seq<Event>
    decreases kids
  {
    if kids == [] then [] else Emit(kids[0]) + EmitAll(kids[1..])
  }

  /** Writing any tree succeeds and leaves the stack and the indent as they
      were before it. */
  lemma {:induction false} BalancedRestores(st: XmlState, n: Node)
    ensures Run(st, Emit(n)).Some?
    ensures Run(st, Emit(n)).value.stack == st.stack
    ensures Run(st, Emit(n)).value.indent == st.indent
    decreases n, 1
  {
    match n
    case Text(s) =>
    case Element(t, kids) =>
      var afterOpen := Open(st, t);
      assert Emit(n) == [OpenEvent(t)] + (EmitAll(kids) + [CloseEvent(t)]);
      BalancedAllRestores(afterOpen, kids);
      RunAppend(afterOpen, EmitAll(kids), [CloseEvent(t)]);
      var inner := Run(afterOpen, EmitAll(kids)).value;
      assert (st.stack + [t])[..|st.stack|] == st.stack;
      assert Close(inner, t).1 == Closed;
  }

  lemma {:induction false} BalancedAllRestores(st: XmlState, kids: seq<Node>)
    ensures Run(st, EmitAll(kids)).Some?
    ensures Run(st, EmitAll(kids)).value.stack == st.stack
    ensures Run(st, EmitAll(kids)).value.indent == st.indent
    decreases kids, 2
  {
    if kids != [] {
      BalancedRestores(st, kids[0]);
      RunAppend(st, Emit(kids[0]), EmitAll(kids[1..]));
      BalancedAllRestores(Run(st, Emit(kids[0])).value, kids[1..]);
    }
  }
}

/** The writer object, whose methods follow the functions above. */
module BasicXmlWriterClass {
  import opened BasicXmlWriter

  class XmlWriter {
    var out: string
    var elementStack: seq<string>
    var indent: int
    var first: bool
    var valuePut: bool

    function State(): XmlState
      reads this
    {
      XmlState(out, elementStack, indent, first, valuePut)
    }

    constructor ()
      ensures State() == Initial
    {
      out, elementStack, indent, first, valuePut := "", [], 0, true, false;
    }

    /** indent(): writes indent spaces. */
    method Indent()
      modifies this`out
      ensures out == old(out) + Spaces(indent)
    {
      var i := 0;
      while i < indent
        invariant 0 <= i && (indent > 0 ==> i <= indent) && (indent <= 0 ==> i == 0)
        invariant out == old(out) + Spaces(i)
      {
        out := out + " ";
        i := i + 1;
      }
    }

    method OpenTag(tagName: string)
      modifies this
      ensures State() == Open(old(State()), tagName)
    {
      valuePut := false;
      if !first {
        out := out + "\n";
      }
      Indent();
      indent := indent + 2;
      out := out + "<" + tagName + ">";
      elementStack := elementStack + [tagName];
      if first {
        first := false;
      }
    }

    method CloseTag(tagName: string) returns (outcome: CloseOutcome)
      modifies this
      ensures (State(), outcome) == Close(old(State()), tagName)
    {
      indent := indent - 2;
      if !valuePut {
        out := out + "\n";
        Indent();
      }
      out := out + "</" + tagName + ">";
      assert out == old(out) + (if old(valuePut) then "" else "\n" + Spaces(indent)) + "</" + tagName + ">";
      if elementStack == [] {
        return EmptyStack;
      }
      var pop := elementStack[|elementStack| - 1];
      elementStack := elementStack[..|elementStack| - 1];
      if pop != tagName {
        return IncorrectClose;
      }
      valuePut := false;
      outcome := Closed;
    }

    /** escape, as a loop building the result. */
    static method Escape(str: string) returns (r: string)
      ensures r == Escaped(str)
    {
      var builder := "";
      var i := 0;
      while i < |str|
        invariant 0 <= i <= |str|
        invariant builder == Escaped(str[..i])
      {
        var c := str[i];
        var piece: string;
        if c == '"' {
          piece := "&quot;";
        } else if c == '&' {
          piece := "&amp;";
        } else if c == '\'' {
          piece := "&apos;";
        } else if c == '<' {
          piece := "&lt;";
        } else if c == '>' {
          piece := "&gt;";
        } else {
          piece := [c];
        }
        EscapedAppend(str[..i], [c]);
        assert str[..i + 1] == str[..i] + [c];
        builder := builder + piece;
        i := i + 1;
      }
      assert str[..|str|] == str;
      r := builder;
    }

    method WriteValue(str: string)
      modifies this
      ensures State() == Value(old(State()), str)
    {
      valuePut := true;
      var escaped := Escape(str);
      out := out + " " + escaped + " ";
    }
  }
}
