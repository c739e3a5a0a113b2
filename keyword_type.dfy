/** The reserved words of Jack, in the declaration order of the KeywordType
    enumeration. */
module KeywordTypes {
  import opened Base

  datatype Keyword =
    | Boolean | Char | Class | Constructor | Do | Else | False | Field
    | Function | If | Int | Let | Method | Null | Return | Static | This
    | True | Var | Void | While

  /** KeywordType.values(), in declaration order. */
  const AllKeywords: seq<Keyword> :=
    [Boolean, Char, Class, Constructor, Do, Else, False, Field, Function, If,
     Int, Let, Method, Null, Return, Static, This, True, Var, Void, While]

  /** name().toLowerCase(Locale.US): the text of the keyword in a Jack source. */
  function KeywordName(k: Keyword): string
  {
    match k
    case Boolean => "boolean"
    case Char => "char"
    case Class => "class"
    case Constructor => "constructor"
    case Do => "do"
    case Else => "else"
    case False => "false"
    case Field => "field"
    case Function => "function"
    case If => "if"
    case Int => "int"
    case Let => "let"
    case Method => "method"
    case Null => "null"
    case Return => "return"
    case Static => "static"
    case This => "this"
    case True => "true"
    case Var => "var"
    case Void => "void"
    case While => "while"
  }

  /** The first keyword of ks whose name is text, if any. */
  function FindKeyword(ks: seq<Keyword>, text: string): Option<Keyword>
  {
    if ks == [] then None
    else if KeywordName(ks[0]) == text then Some(ks[0])
    else FindKeyword(ks[1..], text)
  }

  /** The search finds a listed keyword with that name, or there is none. */
  lemma {:induction false} FindKeywordFound(ks: seq<Keyword>, text: string)
    ensures FindKeyword(ks, text).Some? ==> FindKeyword(ks, text).value in ks && KeywordName(FindKeyword(ks, text).value) == text
    ensures FindKeyword(ks, text).None? ==> forall k :: k in ks ==> KeywordName(k) != text
  {
    if ks != [] && KeywordName(ks[0]) != text {
      FindKeywordFound(ks[1..], text);
      assert forall k :: k in ks ==> k == ks[0] || k in ks[1..];
    }
  }

  /** The keyword a word stands for, as the lexer's search over all keywords finds it. */
  function KeywordOf(text: string): Option<Keyword>
  {
    FindKeyword(AllKeywords, text)
  }

  lemma EveryKeywordListed(k: Keyword)
    ensures k in AllKeywords
  {
  }

  /** A word is a keyword exactly when it is the name of one, and then the
      search recovers that keyword. */
  lemma KeywordOfName(k: Keyword)
    ensures KeywordOf(KeywordName(k)) == Some(k)
  {
    EveryKeywordListed(k);
    FindKeywordFound(AllKeywords, KeywordName(k));
    var r := KeywordOf(KeywordName(k));
    assert r.Some?;
    KeywordNamesDistinct(r.value, k);
  }

  lemma KeywordNamesDistinct(j: Keyword, k: Keyword)
    requires KeywordName(j) == KeywordName(k)
    ensures j == k
  {
    match j
    case Boolean => assert KeywordName(j)[0] == 'b';
    case Char => assert KeywordName(j)[..2] == "ch";
    case Class => assert KeywordName(j)[..2] == "cl";
    case Constructor => assert KeywordName(j)[..2] == "co";
    case Do => assert KeywordName(j)[0] == 'd';
    case Else => assert KeywordName(j)[0] == 'e';
    case False => assert KeywordName(j)[..2] == "fa";
    case Field => assert KeywordName(j)[..2] == "fi";
    case Function => assert KeywordName(j)[..2] == "fu";
    case If => assert KeywordName(j) == "if";
    case Int => assert KeywordName(j) == "int";
    case Let => assert KeywordName(j)[0] == 'l';
    case Method => assert KeywordName(j)[0] == 'm';
    case Null => assert KeywordName(j)[0] == 'n';
    case Return => assert KeywordName(j)[0] == 'r';
    case Static => assert KeywordName(j)[0] == 's';
    case This => assert KeywordName(j)[..2] == "th";
    case True => assert KeywordName(j)[..2] == "tr";
    case Var => assert KeywordName(j)[..2] == "va";
    case Void => assert KeywordName(j)[..2] == "vo";
    case While => assert KeywordName(j)[0] == 'w';
  }

  /** Every keyword name is a non-empty run of lower-case letters. */
  lemma KeywordNameIsWord(k: Keyword)
    ensures |KeywordName(k)| >= 2
    ensures forall i :: 0 <= i < |KeywordName(k)| ==> 'a' <= KeywordName(k)[i] <= 'z'
  {
  }
}
