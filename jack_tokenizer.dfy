/** The lexer of the Jack compiler. The source reads characters from a
    BufferedReader; here the reader is a cursor `pos` into the whole input and
    the reader's mark is the position `markPos`. */
module JackTokenizer {
  import opened Base
  import opened KeywordTypes

  datatype TokenType = KeywordToken | SymbolToken | IntConst | StringConst | IdentifierToken

  /** A classified token: its kind, its text (the characters between the
      quotes for a string constant) and, for a keyword, the keyword that
      keyword() reports while it is the current token. */
  datatype Token = Token(kind: TokenType, text: string, keyword: Option<Keyword>)

  /** The symbol alphabet, as the source spells it (with '[' and ']' twice). */
  const Symbols: string := "(){}[].,;+-[]*/&|<>=~"

  /** The largest value Integer.valueOf accepts. */
  const MaxInt: nat := 0x7FFF_FFFF

  /** intVal: the decimal value of an integer constant's text; None where
      Integer.valueOf throws (no digits, or beyond the int range). */
  function IntValue(text: string): (r: Option<nat>)
    ensures r.Some? ==> r.value <= MaxInt
  {
    if |text| > 0 && AllDigits(text) && DecimalValue(text) <= MaxInt then Some(DecimalValue(text)) else None
  }

  /** The decimal text of every int in range reads back as that int. */
  lemma IntValueOfNatToString(n: nat)
    requires n <= MaxInt
    ensures IntValue(NatToString(n)) == Some(n)
  {
    DecimalValueOfNatToString(n);
  }

  /** The range ends exactly at 2^31 - 1: one more throws NumberFormatException. */
  lemma IntValueRange()
    ensures IntValue("2147483647") == Some(MaxInt)
    ensures IntValue("2147483648").None?
  {
    assert "2"[..0] == "" && DecimalValue("2") == 2;
    assert "21"[..1] == "2" && DecimalValue("21") == 21;
    assert "214"[..2] == "21" && DecimalValue("214") == 214;
    assert "2147"[..3] == "214" && DecimalValue("2147") == 2147;
    assert "21474"[..4] == "2147" && DecimalValue("21474") == 21474;
    assert "214748"[..5] == "21474" && DecimalValue("214748") == 214748;
    assert "2147483"[..6] == "214748" && DecimalValue("2147483") == 2147483;
    assert "21474836"[..7] == "2147483" && DecimalValue("21474836") == 21474836;
    assert "214748364"[..8] == "21474836" && DecimalValue("214748364") == 214748364;
    assert "2147483647"[..9] == "214748364";
    assert "2147483648"[..9] == "214748364";
  }

  predicate IsWhite(c: char) { c == ' ' || c == '\t' || c == '\r' || c == '\n' }

  predicate IsWordChar(c: char)
  {
    IsDigit(c) || ('a' <= c <= 'z') || ('A' <= c <= 'Z') || c == '_'
  }

  // ---------------------------------------------------------------------
  // Skipping layout (hasMoreTokens)
  // ---------------------------------------------------------------------

  /** Where readLine leaves the reader when started at q: just after the first
      line terminator ("\n", "\r" or "\r\n"), or at the end of the input. */
  function LineEnd(s: string, q: nat): (r: nat)
    requires q <= |s|
    ensures q <= r <= |s|
    ensures q < |s| ==> q < r
    decreases |s| - q
  {
    if q == |s| then q
    else if s[q] == '\n' then q + 1
    else if s[q] == '\r' then (if q + 1 < |s| && s[q + 1] == '\n' then q + 2 else q + 1)
    else LineEnd(s, q + 1)
  }

  /** Where the block-comment loop leaves the reader when started at q (just
      after the opening slash and star): after the first star-slash pair that begins at
      q or later. None when there is no such pair: the source then compares
      end-of-input markers forever. */
  function CommentEnd(s: string, q: nat): (r: Option<nat>)
    requires q <= |s|
    ensures r.Some? ==> q + 2 <= r.value <= |s| && s[r.value - 2] == '*' && s[r.value - 1] == '/'
    decreases |s| - q
  {
    if q + 1 >= |s| then None
    else if s[q] == '*' && s[q + 1] == '/' then Some(q + 2)
    else CommentEnd(s, q + 1)
  }

  /** A slash that starts a line comment or a block comment. */
  predicate CommentStart(s: string, p: nat)
  {
    p + 1 < |s| && s[p] == '/' && (s[p + 1] == '/' || s[p + 1] == '*')
  }

  /** The position hasMoreTokens stops at: the first character from p on that
      is not white space and does not open a comment, or the end of the input.
      None when an unterminated block comment makes the source loop forever. */
  function Skip(s: string, p: nat): (r: Option<nat>)
    requires p <= |s|
    ensures r.Some? ==> p <= r.value <= |s|
    decreases |s| - p
  {
    if p == |s| then Some(p)
    else if IsWhite(s[p]) then Skip(s, p + 1)
    else if CommentStart(s, p) && s[p + 1] == '/' then Skip(s, LineEnd(s, p + 2))
    else if CommentStart(s, p) then
      match CommentEnd(s, p + 2)
      case None => None
      case Some(e) => Skip(s, e)
    else Some(p)
  }

  /** hasMoreTokens stops on a character that starts a token (a lone slash
      included), never inside layout, and never moves backwards. */
  lemma {:induction false} SkipStopsAtTokenStart(s: string, p: nat)
    requires p <= |s| && Skip(s, p).Some?
    ensures var q := Skip(s, p).value; q < |s| ==> !IsWhite(s[q]) && !CommentStart(s, q)
    decreases |s| - p
  {
    if p == |s| {
    } else if IsWhite(s[p]) {
      SkipStopsAtTokenStart(s, p + 1);
    } else if CommentStart(s, p) && s[p + 1] == '/' {
      SkipStopsAtTokenStart(s, LineEnd(s, p + 2));
    } else if CommentStart(s, p) {
      SkipStopsAtTokenStart(s, CommentEnd(s, p + 2).value);
    }
  }

  /** Skipping twice is skipping once: hasMoreTokens does not move the reader
      when it is already on a token start. */
  lemma SkipIdempotent(s: string, p: nat)
    requires p <= |s| && Skip(s, p).Some?
    ensures Skip(s, Skip(s, p).value) == Skip(s, p)
  {
    SkipStopsAtTokenStart(s, p);
  }

  // ---------------------------------------------------------------------
  // Lexing one token (advance)
  // ---------------------------------------------------------------------

  /** The end of the maximal run of characters satisfying the digit test from p. */
  function DigitRunEnd(s: string, p: nat): (e: nat)
    requires p <= |s|
    ensures p <= e <= |s| && AllDigits(s[p..e])
    ensures e == |s| || !IsDigit(s[e])
    decreases |s| - p
  {
    if p < |s| && IsDigit(s[p]) then DigitRunEnd(s, p + 1) else p
  }

  predicate AllWordChars(w: string) { forall i :: 0 <= i < |w| ==> IsWordChar(w[i]) }

  /** The end of the maximal run of letters, digits and underscores from p. */
  function WordRunEnd(s: string, p: nat): (e: nat)
    requires p <= |s|
    ensures p <= e <= |s| && AllWordChars(s[p..e])
    ensures e == |s| || !IsWordChar(s[e])
    decreases |s| - p
  {
    if p < |s| && IsWordChar(s[p]) then WordRunEnd(s, p + 1) else p
  }

  /** The index of the first double quote at or after p, if any. */
  function QuoteFrom(s: string, p: nat): (r: Option<nat>)
    requires p <= |s|
    ensures r.Some? ==> p <= r.value < |s| && s[r.value] == '"' && '"' !in s[p..r.value]
    ensures r.None? ==> '"' !in s[p..]
    decreases |s| - p
  {
    if p == |s| then None
    else if s[p] == '"' then Some(p)
    else
      var r := QuoteFrom(s, p + 1);
      assert s[p..] == [s[p]] + s[p + 1..];
      assert r.Some? ==> s[p..r.value] == [s[p]] + s[p + 1..r.value];
      r
  }

  /** What one advance produces: the token and the reader's new position and
      mark. A token with no keyword leaves keyword() unchanged. */
  datatype Scanned = Scanned(token: Token, next: nat, mark: nat)

  /** advance started with the reader at p and its mark at m. The digit test
      comes first, then the double quote, then the symbol alphabet, and
      everything else is read as a word. A word run that is empty (a character
      outside every class, or the end of the input) leaves the reader reset
      to its mark. None for an unterminated string constant, on which the
      source loops forever. */
  function Scan(s: string, p: nat, m: nat): Option<Scanned>
    requires m <= p <= |s|
  {
    if p < |s| && IsDigit(s[p]) then
      var e := DigitRunEnd(s, p);
      Some(Scanned(Token(IntConst, s[p..e], None), e, e))
    else if p < |s| && s[p] == '"' then
      match QuoteFrom(s, p + 1)
      case None => None
      case Some(q) => Some(Scanned(Token(StringConst, s[p + 1..q], None), q + 1, m))
    else if p < |s| && s[p] in Symbols then
      Some(Scanned(Token(SymbolToken, [s[p]], None), p + 1, m))
    else
      var e := WordRunEnd(s, p);
      var w := s[p..e];
      var after := if e == p then m else e;
      match KeywordOf(w)
      case Some(k) => Some(Scanned(Token(KeywordToken, w, Some(k)), after, after))
      case None => Some(Scanned(Token(IdentifierToken, w, None), after, after))
  }

  /** The tokens the lexer can produce, as the translator relies on them. */
  predicate ValidToken(t: Token)
  {
    match t.kind
    case KeywordToken => KeywordOf(t.text).Some? && t.keyword == KeywordOf(t.text)
    case SymbolToken => |t.text| == 1 && t.text[0] in Symbols && t.keyword.None?
    case IntConst => |t.text| >= 1 && AllDigits(t.text) && t.keyword.None?
    case StringConst => '"' !in t.text && t.keyword.None?
    case IdentifierToken =>
      AllWordChars(t.text) && KeywordOf(t.text).None? && (|t.text| > 0 ==> !IsDigit(t.text[0])) && t.keyword.None?
  }

  /** A leading digit gives an integer constant: the maximal digit run, read
      no further than the first non-digit, whose decimal value intVal returns. */
  lemma ScanIntConst(s: string, p: nat, m: nat)
    requires m <= p < |s| && IsDigit(s[p])
    ensures Scan(s, p, m).Some?
    ensures var r := Scan(s, p, m).value;
      && r.token.kind == IntConst && r.token.text == s[p..r.next]
      && p < r.next && AllDigits(r.token.text)
      && (r.next == |s| || !IsDigit(s[r.next]))
      && r.mark == r.next && r.token.keyword.None?
  {
  }

  /** A leading double quote gives the characters up to the next double quote,
      both quotes excluded and the closing one consumed; the mark is untouched. */
  lemma ScanStringConst(s: string, p: nat, m: nat)
    requires m <= p < |s| && s[p] == '"' && Scan(s, p, m).Some?
    ensures var r := Scan(s, p, m).value;
      && r.token.kind == StringConst
      && p + 2 <= r.next <= |s| && s[r.next - 1] == '"'
      && r.token.text == s[p + 1..r.next - 1] && '"' !in r.token.text
      && r.mark == m
  {
  }

  /** A character of the symbol alphabet is a one-character symbol whose
      symbol() is that character. */
  lemma ScanSymbol(s: string, p: nat, m: nat)
    requires m <= p < |s| && s[p] in Symbols
    ensures Scan(s, p, m) == Some(Scanned(Token(SymbolToken, [s[p]], None), p + 1, m))
  {
    assert !IsDigit(s[p]) && s[p] != '"' by {
      var i :| 0 <= i < |Symbols| && Symbols[i] == s[p];
    }
  }

  /** Any other start gives the maximal word run. It is a keyword exactly when
      it is the name of a keyword, and then keyword() becomes that keyword;
      otherwise it is an identifier and keyword() is left as it was. A word
      never starts with a digit, since digits are tested first. */
  lemma ScanWord(s: string, p: nat, m: nat)
    requires m <= p <= |s|
    requires p == |s| || (!IsDigit(s[p]) && s[p] != '"' && s[p] !in Symbols)
    ensures Scan(s, p, m).Some?
    ensures var r := Scan(s, p, m).value;
      && r.token.text == s[p..WordRunEnd(s, p)]
      && (r.token.kind == KeywordToken || r.token.kind == IdentifierToken)
      && (r.token.kind == KeywordToken <==> exists k :: KeywordName(k) == r.token.text)
      && (forall k :: r.token.keyword == Some(k) <==> (r.token.kind == KeywordToken && KeywordName(k) == r.token.text))
      && (|r.token.text| > 0 ==> !IsDigit(r.token.text[0]))
  {
    var r := Scan(s, p, m).value;
    var w := s[p..WordRunEnd(s, p)];
    assert r.token.text == w;
    FindKeywordFound(AllKeywords, w);
    match KeywordOf(w)
    case Some(k) =>
      assert KeywordName(k) == w;
      forall j ensures r.token.keyword == Some(j) <==> KeywordName(j) == w {
        if KeywordName(j) == w { KeywordNamesDistinct(j, k); }
      }
    case None =>
      forall j ensures KeywordName(j) != w {
        EveryKeywordListed(j);
      }
  }

  /** Every token advance produces is one the translator accepts. */
  lemma ScanValid(s: string, p: nat, m: nat)
    requires m <= p <= |s| && Scan(s, p, m).Some?
    ensures ValidToken(Scan(s, p, m).value.token)
  {
    if p < |s| && IsDigit(s[p]) {
    } else if p < |s| && s[p] == '"' {
    } else if p < |s| && s[p] in Symbols {
    } else {
      ScanWord(s, p, m);
    }
  }

  /** Where reset returns after mark and one advance from the same position:
      to the marked position after a symbol or a string constant, but to the
      end of the run after an integer constant or a non-empty word, because
      advance marks the reader again while it reads a run. */
  lemma ScanMark(s: string, p: nat)
    requires p <= |s| && Scan(s, p, p).Some?
    ensures var r := Scan(s, p, p).value;
      && (r.token.kind == SymbolToken || r.token.kind == StringConst ==> r.mark == p)
      && (r.token.kind == IntConst ==> r.mark == r.next == p + |r.token.text|)
      && (r.token.kind == KeywordToken || r.token.kind == IdentifierToken ==> r.mark == r.next == p + |r.token.text|)
  {
  }

  /** Started on a character that begins a token, advance moves forward. */
  lemma ScanProgress(s: string, p: nat)
    requires p < |s| && (IsDigit(s[p]) || s[p] == '"' || s[p] in Symbols || IsWordChar(s[p]))
    requires Scan(s, p, p).Some?
    ensures Scan(s, p, p).value.next > p
  {
  }
}

/** The lexer object: the reader (input, position, mark) and the current and
    saved token state. Null fields of the source are None. */
module JackTokenizerClass {
  import opened Base
  import opened KeywordTypes
  import opened JackTokenizer

  class Tokenizer {
    const input: string
    var pos: nat
    var markPos: nat
    var currentToken: Option<string>
    var currentTokenType: Option<TokenType>
    var currentKeywordType: Option<Keyword>
    var savedToken: Option<string>
    var savedTokenType: Option<TokenType>
    var savedKeywordType: Option<Keyword>

    ghost predicate Valid()
      reads this
    {
      markPos <= pos <= |input|
    }

    constructor (text: string)
      ensures Valid() && input == text && pos == 0 && markPos == 0
      ensures currentToken.None? && currentTokenType.None? && currentKeywordType.None?
    {
      input := text;
      pos, markPos := 0, 0;
      currentToken, currentTokenType, currentKeywordType := None, None, None;
      savedToken, savedTokenType, savedKeywordType := None, None, None;
    }

    /** reader.read(): the next character, or None at the end of the input. */
    method Read() returns (c: Option<char>)
      requires Valid()
      modifies this`pos
      ensures Valid()
      ensures old(pos) < |input| ==> c == Some(input[old(pos)]) && pos == old(pos) + 1
      ensures old(pos) == |input| ==> c.None? && pos == old(pos)
    {
      if pos < |input| {
        c := Some(input[pos]);
        pos := pos + 1;
      } else {
        c := None;
      }
    }

    /** hasMoreTokens: skips white space and comments, leaves the reader (and
        its mark) on the first character of the next token, and reports
        whether there is one. */
    method HasMoreTokens() returns (more: bool)
      requires Valid() && Skip(input, pos).Some?
      modifies this`pos, this`markPos
      ensures Valid()
      ensures pos == markPos == Skip(input, old(pos)).value
      ensures more <==> pos < |input|
    {
      ghost var target := Skip(input, pos).value;
      ghost var first := true;
      var c: Option<char> := Some(' ');
      while c.Some? && (IsWhite(c.value) || c.value == '/')
        invariant Valid() && markPos <= |input|
        invariant first ==> c == Some(' ') && pos == old(pos) && Skip(input, pos) == Some(target)
        invariant !first ==> Skip(input, markPos) == Some(target)
        invariant !first ==> markPos < |input| ==> c == Some(input[markPos]) && pos == markPos + 1
        invariant !first ==> markPos == |input| ==> c.None? && pos == |input|
        decreases |input| + 1 - (if first then pos else markPos + 1)
      {
        if c.value == '/' {
          pos := markPos;
          markPos := pos;
          var slash := Read();
          var b := Read();
          if b == Some('/') {
            assert CommentStart(input, markPos) && input[markPos + 1] == '/';
            ReadLine();
          } else if b == Some('*') {
            assert CommentStart(input, markPos) && input[markPos + 1] == '*';
            SkipBlockComment();
          } else {
            pos := markPos;
            return true;
          }
        }
        markPos := pos;
        c := Read();
        first := false;
      }
      pos := markPos;
      more := c.Some?;
    }

    /** reader.readLine(), its result discarded: moves past the end of the line. */
    method ReadLine()
      requires Valid()
      modifies this`pos
      ensures Valid() && pos == LineEnd(input, old(pos))
    {
      pos := LineEnd(input, pos);
    }

    /** The loop that reads a block comment up to and including its closing
        star and slash. */
    method SkipBlockComment()
      requires Valid() && CommentEnd(input, pos).Some?
      modifies this`pos
      ensures Valid() && pos == CommentEnd(input, old(pos)).value
    {
      ghost var j := pos;
      var b := Read();
      var b2 := Read();
      while !(b == Some('*') && b2 == Some('/'))
        invariant Valid() && old(pos) <= j && j + 1 < |input| && pos == j + 2
        invariant b == Some(input[j]) && b2 == Some(input[j + 1])
        invariant CommentEnd(input, j) == CommentEnd(input, old(pos))
        decreases |input| - pos
      {
        b := b2;
        b2 := Read();
        j := j + 1;
      }
    }

    /** isKeyword: searches the keywords in declaration order and records the
        one found in keyword(). */
    method IsKeyword(token: string) returns (found: bool)
      modifies this`currentKeywordType
      ensures found <==> KeywordOf(token).Some?
      ensures currentKeywordType == if found then KeywordOf(token) else old(currentKeywordType)
    {
      var i := 0;
      while i < |AllKeywords|
        invariant 0 <= i <= |AllKeywords|
        invariant FindKeyword(AllKeywords[i..], token) == KeywordOf(token)
        invariant currentKeywordType == old(currentKeywordType)
      {
        assert AllKeywords[i..][1..] == AllKeywords[i + 1..];
        if KeywordName(AllKeywords[i]) == token {
          currentKeywordType := Some(AllKeywords[i]);
          return true;
        }
        i := i + 1;
      }
      return false;
    }

    /** The digit loop of advance, entered with the first digit c already read
        from position p: reads the run, marking before each read, and resets
        to the mark, which is the end of the run. */
    method ReadDigitRun(ghost p: nat, first: char) returns (token: string)
      requires Valid() && p < |input| && pos == p + 1 && first == input[p] && IsDigit(first)
      modifies this`pos, this`markPos
      ensures Valid() && token == input[p..DigitRunEnd(input, p)]
      ensures pos == markPos == DigitRunEnd(input, p)
    {
      token := [];
      var c := Some(first);
      while c.Some? && IsDigit(c.value)
        invariant Valid() && p + |token| <= |input| && token == input[p..p + |token|]
        invariant AllDigits(token) && DigitRunEnd(input, p + |token|) == DigitRunEnd(input, p)
        invariant c.Some? ==> pos == p + |token| + 1 && c == Some(input[p + |token|])
        invariant c.None? ==> pos == |input| == p + |token|
        invariant |token| > 0 ==> markPos == p + |token|
        decreases |input| - pos, if c.Some? then 1 else 0
      {
        token := token + [c.value];
        markPos := pos;
        c := Read();
      }
      pos := markPos;
    }

    /** The string-constant loop of advance, entered just after the opening
        quote: reads up to and including the closing quote. */
    method ReadStringRun() returns (token: string)
      requires Valid() && QuoteFrom(input, pos).Some?
      modifies this`pos
      ensures Valid() && token == input[old(pos)..QuoteFrom(input, old(pos)).value]
      ensures pos == QuoteFrom(input, old(pos)).value + 1
    {
      ghost var q := QuoteFrom(input, pos).value;
      token := [];
      var c := Read();
      while c != Some('"')
        invariant Valid() && old(pos) < pos <= q + 1 && c == Some(input[pos - 1])
        invariant token == input[old(pos)..pos - 1]
        decreases q - pos
      {
        token := token + [c.value];
        c := Read();
      }
    }

    /** The word loop of advance, entered with c read from position p (None at
        the end of the input): reads the run of letters, digits and
        underscores, marking before each read, then resets to the mark. */
    method ReadWordRun(ghost p: nat, c0: Option<char>) returns (token: string)
      requires Valid() && p <= |input|
      requires c0.Some? ==> p < |input| && c0 == Some(input[p]) && pos == p + 1
      requires c0.None? ==> p == |input| == pos
      modifies this`pos, this`markPos
      ensures Valid() && token == input[p..WordRunEnd(input, p)]
      ensures pos == markPos == if token == [] then old(markPos) else WordRunEnd(input, p)
    {
      token := [];
      var c := c0;
      while c.Some? && IsWordChar(c.value)
        invariant Valid() && p + |token| <= |input| && token == input[p..p + |token|]
        invariant WordRunEnd(input, p + |token|) == WordRunEnd(input, p)
        invariant c.Some? ==> pos == p + |token| + 1 && c == Some(input[p + |token|])
        invariant c.None? ==> pos == |input| == p + |token|
        invariant |token| > 0 ==> markPos == p + |token|
        invariant |token| == 0 ==> markPos == old(markPos)
        decreases |input| - pos, if c.Some? then 1 else 0
      {
        token := token + [c.value];
        markPos := pos;
        c := Read();
      }
      pos := markPos;
    }

    /** advance: lexes one token from the reader's position, as Scan describes. */
    method Advance()
      requires Valid() && Scan(input, pos, markPos).Some?
      modifies this`pos, this`markPos, this`currentToken, this`currentTokenType, this`currentKeywordType
      ensures Valid()
      ensures var r := Scan(input, old(pos), old(markPos)).value;
        && pos == r.next && markPos == r.mark
        && currentToken == Some(r.token.text) && currentTokenType == Some(r.token.kind)
        && currentKeywordType == (if r.token.keyword.Some? then r.token.keyword else old(currentKeywordType))
    {
      ghost var p := pos;
      var token: string;
      var c := Read();
      if c.Some? && IsDigit(c.value) {
        token := ReadDigitRun(p, c.value);
        currentTokenType := Some(IntConst);
      } else if c == Some('"') {
        token := ReadStringRun();
        currentTokenType := Some(StringConst);
      } else if c.Some? && c.value in Symbols {
        token := [c.value];
        currentTokenType := Some(SymbolToken);
      } else {
        token := ReadWordRun(p, c);
        currentToken := Some(token);
        var isKeyword := IsKeyword(token);
        currentTokenType := Some(if isKeyword then KeywordToken else IdentifierToken);
      }
      currentToken := Some(token);
    }

    /** mark: saves the token state and marks the reader. */
    method Mark()
      requires Valid()
      modifies this`savedToken, this`savedTokenType, this`savedKeywordType, this`markPos
      ensures Valid() && markPos == pos
      ensures savedToken == currentToken && savedTokenType == currentTokenType
      ensures savedKeywordType == currentKeywordType
    {
      savedKeywordType := currentKeywordType;
      savedToken := currentToken;
      savedTokenType := currentTokenType;
      markPos := pos;
    }

    /** reset: restores the saved token state and returns the reader to its
        most recent mark (which advance may have moved since mark). */
    method Reset()
      requires Valid()
      modifies this`currentToken, this`currentTokenType, this`currentKeywordType, this`pos
      ensures Valid() && pos == markPos
      ensures currentToken == savedToken && currentTokenType == savedTokenType
      ensures currentKeywordType == savedKeywordType
    {
      currentKeywordType := savedKeywordType;
      currentToken := savedToken;
      currentTokenType := savedTokenType;
      pos := markPos;
    }

    function GetTokenType(): Option<TokenType> reads this { currentTokenType }

    function KeywordValue(): Option<Keyword> reads this { currentKeywordType }

    /** symbol(): the first character of the current text; None where the
        source fails (no token yet, or an empty text). */
    function SymbolValue(): Option<char>
      reads this
    {
      if currentToken.Some? && |currentToken.value| > 0 then Some(currentToken.value[0]) else None
    }

    function IdentifierValue(): Option<string> reads this { currentToken }

    function StringValue(): Option<string> reads this { currentToken }

    /** intVal(): the decimal value of the current text; None where
        Integer.valueOf fails. */
    function IntValue(): Option<nat>
      reads this
    {
      if currentToken.Some? then JackTokenizer.IntValue(currentToken.value) else None
    }
  }
}
